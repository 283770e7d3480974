/** What a reader of the log page may rely on: order always, true restart rows while no line is
    dropped before a snapshot, and every line exactly once while none is dropped at all. */
module LogContinuity {
  import opened Common
  import opened LogRing
  import opened LogsView
  import opened LogTelling
  import opened LogDelivery

  /** No line finds the queue of a stream full before the stream took its snapshot. */
  predicate KeepsUp(st: State, step: Step)
  {
    step.Emit? && st.conn.Some? && st.conn.value.snap.None? ==> |st.conn.value.queue| < QUEUE_MAX
  }

  /** No line finds the queue full, and a snapshot still holds the line after the last row. */
  predicate Smooth(st: State, step: Step)
  {
    && (step.Emit? && st.conn.Some? ==> |st.conn.value.queue| < QUEUE_MAX)
    && (step.Snapshot? && st.page.boot == Boot(st) ==> Forgotten(st.buffer) <= st.page.last)
  }

  ghost predicate KeptUp(limit: int, steps: seq<Step>)
  {
    forall k {:trigger steps[k]} :: 0 <= k < |steps| ==> KeepsUp(Run(Start(limit), steps[..k]), steps[k])
  }

  ghost predicate RanSmoothly(limit: int, steps: seq<Step>)
  {
    forall k {:trigger steps[k]} :: 0 <= k < |steps| ==> Smooth(Run(Start(limit), steps[..k]), steps[k])
  }

  // Frames never fall behind

  /** Each frame reaches at least as far as the one before it, the first as far as the page. */
  ghost predicate NetClimbs(boot: BootId, last: nat, net: seq<Frame>)
  {
    && (|net| > 0 && net[0].boot == boot ==> last <= Head(net[0]))
    && (forall i {:trigger net[i]} :: 0 < i < |net| ==> Head(net[i - 1]) <= Head(net[i]))
  }

  /** How far the page is, or will be once the frames under way have arrived. */
  function Reach(boot: BootId, page: Page, net: seq<Frame>): nat
  {
    if |net| > 0 then Head(net[|net| - 1]) else if page.boot == boot then page.last else 0
  }

  ghost predicate ConnCalm(c: Conn, boot: BootId, log: seq<string>, page: Page, net: seq<Frame>)
  {
    if c.snap.None? then
      && |net| == 0 && (page.boot == boot ==> page.last <= c.since)
      && Stretch(log, c.since, c.queue) && c.since + |c.queue| == |log|
    else
      && Reach(boot, page, net) <= |log|
      && (|Stream(c)| > 0 ==> Reach(boot, page, net) <= Top(Stream(c)))
  }

  ghost predicate Calm(st: State)
  {
    && NetClimbs(st.page.boot, st.page.last, st.net)
    && (st.conn.Some? ==> ConnCalm(st.conn.value, Boot(st), st.buffer.log, st.page, st.net))
    && AllReal(st.home, st.told)
  }

  lemma {:induction false} ConnCalmEmit(c: Conn, boot: BootId, log: seq<string>, text: string,
      page: Page, net: seq<Frame>)
    requires ConnCalm(c, boot, log, page, net)
    requires c.snap.None? ==> |c.queue| < QUEUE_MAX
    ensures ConnCalm(Offer(Some(c), Line(|log| + 1, text)).value, boot, log + [text], page, net)
  {
    var line := Line(|log| + 1, text);
    var d := Offer(Some(c), line).value;
    if c.snap.Some? && |c.queue| < QUEUE_MAX { assert Stream(d) == Stream(c) + [line]; }
  }

  lemma {:induction false} CalmEmit(st: State, text: string)
    requires Calm(st) && KeepsUp(st, Emit(text))
    ensures Calm(Next(st, Emit(text)))
  {
    if st.conn.Some? {
      ConnCalmEmit(st.conn.value, Boot(st), st.buffer.log, text, st.page, st.net);
    }
  }

  function SnapshotNet(boot: BootId, b: Buffer): seq<Frame>
  {
    if |b.lines| > 0 then [Frame(boot, b.lines)] else []
  }

  lemma {:induction false} ConnCalmSnapshot(c: Conn, boot: BootId, b: Buffer, page: Page)
    requires IsRing(b) && c.snap.None? && |c.pending| == 0
    requires ConnCalm(c, boot, b.log, page, [])
    requires page.boot == boot ==> page.last <= |b.log|
    ensures ConnCalm(c.(snap := Some(|b.log|)), boot, b.log, page, SnapshotNet(boot, b))
    ensures NetClimbs(page.boot, page.last, SnapshotNet(boot, b))
    ensures Reach(boot, page, SnapshotNet(boot, b)) == |b.log|
  {
    assert Stream(c) == c.queue;
    assert Stream(c.(snap := Some(|b.log|))) == c.queue;
    StretchIsTrue(b.log, c.since, c.queue);
    StretchIsTrue(b.log, Forgotten(b), b.lines);
  }

  lemma {:induction false} CalmSnapshot(st: State)
    requires Calm(st) && IsRing(st.buffer) && st.conn.Some? && st.conn.value.snap.None?
    requires |st.conn.value.pending| == 0
    requires st.page.boot == Boot(st) ==> st.page.last <= |st.buffer.log|
    ensures Calm(TakeSnapshot(st))
  {
    ConnCalmSnapshot(st.conn.value, Boot(st), st.buffer, st.page);
    var st' := TakeSnapshot(st);
    assert st'.net == SnapshotNet(Boot(st), st.buffer);
    assert st'.conn == Some(st.conn.value.(snap := Some(|st.buffer.log|)));
  }

  lemma {:induction false} BeforeSnapshot(st: State)
    requires Sound(st) && st.conn.Some? && st.conn.value.snap.None?
    ensures |st.conn.value.pending| == 0
    ensures st.page.boot == Boot(st) ==> st.page.last <= |st.buffer.log|
  {
    if st.page.boot == Boot(st) { WatermarkInLog(st); }
  }

  lemma {:induction false} CalmYield(st: State)
    requires Sound(st) && Calm(st)
    ensures Calm(YieldBatch(st))
  {
    var st' := YieldBatch(st);
    if st' != st {
      var c := st.conn.value;
      assert Stream(c) == c.pending && Stream(st'.conn.value) == [];
      assert IsLine(st.buffer.log, c.pending[|c.pending| - 1]);
      assert forall i :: 0 <= i < |st.net| ==> st'.net[i] == st.net[i];
    }
  }

  lemma {:induction false} DeliverKeepsReach(boot: BootId, page: Page, next: Page, net: seq<Frame>)
    requires |net| > 0 && next.boot == net[0].boot && next.last == Head(net[0])
    requires net[0].boot == boot
    ensures Reach(boot, next, net[1..]) == Reach(boot, page, net)
  {
    if |net| > 1 { assert net[1..][|net| - 2] == net[|net| - 1]; }
  }

  lemma {:induction false} DeliverKeepsClimb(boot: BootId, last: nat, net: seq<Frame>)
    requires |net| > 0 && NetClimbs(boot, last, net)
    ensures NetClimbs(net[0].boot, Head(net[0]), net[1..])
  {
    forall i | 0 < i < |net[1..]|
      ensures Head(net[1..][i - 1]) <= Head(net[1..][i])
    {
      assert net[1..][i] == net[i + 1] && net[1..][i - 1] == net[i];
    }
    if |net| > 1 { assert Head(net[0]) <= Head(net[1]); }
  }

  lemma {:induction false} CalmDeliver(st: State)
    requires Sound(st) && Calm(st) && |st.net| > 0
    ensures Calm(DeliverFrame(st))
  {
    var f := st.net[0];
    assert FrameTrue(Logs(st), f);
    TrueIsGood(Logs(st), f);
    FrameKeepsReal(st.home, st.told, st.page, f);
    FrameOutcome(st.page, f);
    DeliverKeepsClimb(st.page.boot, st.page.last, st.net);
    if st.conn.Some? { DeliverKeepsReach(Boot(st), st.page, Framed(st.page, f), st.net); }
  }

  lemma {:induction false} CalmConnect(st: State)
    requires Sound(st) && Calm(st)
    ensures Calm(Next(st, Connect))
  {
    if st.page.boot == Boot(st) { WatermarkInLog(st); }
  }

  /** Moving a queued line into the batch leaves the stream as it is. */
  lemma {:induction false} TakeKeepsStream(c: Conn)
    requires |c.queue| > 0
    ensures Stream(c.(pending := c.pending + [c.queue[0]], queue := c.queue[1..])) == Stream(c)
  {
  }

  lemma {:induction false} CalmTake(st: State)
    requires Calm(st) && TakeLine(st) != st
    ensures Calm(TakeLine(st))
  {
    TakeKeepsStream(st.conn.value);
  }

  lemma {:induction false} CalmElsewhere(st: State, step: Step)
    requires Calm(st) && (step.SetCapacity? || step.Cut? || step.Restart? || step.Clear?)
    ensures Calm(Next(st, step))
  {
  }

  lemma {:induction false} CalmStep(st: State, step: Step)
    requires Sound(st) && Calm(st) && KeepsUp(st, step)
    ensures Calm(Next(st, step))
  {
    match step
    case Emit(text) => CalmEmit(st, text);
    case Connect => CalmConnect(st);
    case Snapshot => if TakeSnapshot(st) != st { BeforeSnapshot(st); CalmSnapshot(st); }
    case Take => if TakeLine(st) != st { CalmTake(st); }
    case Yield => CalmYield(st);
    case Deliver => if |st.net| > 0 { CalmDeliver(st); }
    case Load => SoundLoad(st);
    case _ => CalmElsewhere(st, step);
  }

  lemma {:induction false} CalmRun(limit: int, steps: seq<Step>)
    requires KeptUp(limit, steps)
    ensures Sound(Run(Start(limit), steps)) && Calm(Run(Start(limit), steps))
  {
    SoundRun(limit, steps);
    if |steps| == 0 {
      SoundLoad(State([], Opened(limit), None, false, [], Page(1, 0, [], 0), 1, [], []));
    } else {
      var front := steps[..|steps| - 1];
      assert forall k :: 0 <= k < |front| ==> front[k] == steps[k] && front[..k] == steps[..k];
      CalmRun(limit, front);
      CalmStep(Run(Start(limit), front), steps[|steps| - 1]);
    }
  }

  // No line is left out

  /** No gap between the page and the first frame, nor between frames, nor inside one. */
  ghost predicate NetJoins(boot: BootId, last: nat, net: seq<Frame>)
  {
    && (|net| > 0 && |net[0].lines| > 0 && net[0].boot == boot ==> net[0].lines[0].number <= last + 1)
    && (forall i {:trigger net[i]} :: 0 <= i < |net| ==> Contiguous(net[i].lines))
    && (forall i {:trigger net[i]} :: 0 < i < |net| && |net[i].lines| > 0 ==>
          net[i].lines[0].number <= Head(net[i - 1]) + 1)
  }

  /** What is still to come starts no later than where the frames under way end. */
  ghost predicate ConnJoins(c: Conn, boot: BootId, log: seq<string>, page: Page, net: seq<Frame>)
  {
    c.snap.Some? ==>
      && Stretch(log, |log| - |Stream(c)|, Stream(c))
      && |log| - |Stream(c)| <= Reach(boot, page, net)
  }

  ghost predicate Joined(st: State)
  {
    && NetJoins(st.page.boot, st.page.last, st.net)
    && (st.conn.Some? ==> ConnJoins(st.conn.value, Boot(st), st.buffer.log, st.page, st.net))
    && AllNext(st.told)
  }

  lemma {:induction false} JoinedEmit(st: State, text: string)
    requires Joined(st) && Smooth(st, Emit(text))
    ensures Joined(Next(st, Emit(text)))
  {
    if st.conn.Some? {
      var c, log, line := st.conn.value, st.buffer.log, Line(|st.buffer.log| + 1, text);
      assert Stream(Offer(st.conn, line).value) == Stream(c) + [line];
      if c.snap.Some? { StretchPush(log, text, |log| - |Stream(c)|, Stream(c)); }
    }
  }

  lemma {:induction false} StretchPush(log: seq<string>, text: string, from: int, lines: seq<Line>)
    requires Stretch(log, from, lines) && from + |lines| == |log|
    ensures Stretch(log + [text], from, lines + [Line(|log| + 1, text)])
  {
  }

  lemma {:induction false} StretchIsContiguous(log: seq<string>, from: int, lines: seq<Line>)
    requires Stretch(log, from, lines)
    ensures Contiguous(lines) && (|lines| > 0 ==> lines[0].number == from + 1)
  {
  }

  lemma {:induction false} ConnJoinsSnapshot(c: Conn, boot: BootId, b: Buffer, page: Page)
    requires IsRing(b) && c.snap.None? && |c.pending| == 0
    requires ConnCalm(c, boot, b.log, page, [])
    requires page.boot == boot ==> Forgotten(b) <= page.last <= |b.log|
    ensures ConnJoins(c.(snap := Some(|b.log|)), boot, b.log, page, SnapshotNet(boot, b))
    ensures NetJoins(page.boot, page.last, SnapshotNet(boot, b))
  {
    ConnCalmSnapshot(c, boot, b, page);
    StretchIsContiguous(b.log, Forgotten(b), b.lines);
    assert Stream(c.(snap := Some(|b.log|))) == c.queue;
  }

  lemma {:induction false} JoinedSnapshot(st: State)
    requires Calm(st) && Joined(st) && IsRing(st.buffer) && Smooth(st, Snapshot)
    requires st.conn.Some? && st.conn.value.snap.None? && |st.conn.value.pending| == 0
    requires st.page.boot == Boot(st) ==> st.page.last <= |st.buffer.log|
    ensures Joined(TakeSnapshot(st))
  {
    var st' := TakeSnapshot(st);
    ConnJoinsSnapshot(st.conn.value, Boot(st), st.buffer, st.page);
    assert st'.net == SnapshotNet(Boot(st), st.buffer);
    assert st'.conn == Some(st.conn.value.(snap := Some(|st.buffer.log|)));
  }

  lemma {:induction false} JoinedYield(st: State)
    requires Joined(st) && YieldBatch(st) != st && st.conn.value.snap.Some?
    requires |st.net| > 0 ==> st.net[0].boot == Boot(st)
    ensures Joined(YieldBatch(st))
  {
    var c, log, st' := st.conn.value, st.buffer.log, YieldBatch(st);
    assert Stream(c) == c.pending && Stream(st'.conn.value) == [];
    StretchIsContiguous(log, |log| - |c.pending|, c.pending);
    assert forall i :: 0 <= i < |st.net| ==> st'.net[i] == st.net[i];
  }

  lemma {:induction false} DeliverKeepsJoin(boot: BootId, last: nat, net: seq<Frame>)
    requires |net| > 0 && NetJoins(boot, last, net)
    ensures NetJoins(net[0].boot, Head(net[0]), net[1..])
  {
    var rest := net[1..];
    assert forall i :: 0 <= i < |rest| ==> rest[i] == net[i + 1];
    forall i | 0 <= i < |rest|
      ensures Contiguous(rest[i].lines)
      ensures |rest[i].lines| > 0 ==> rest[i].lines[0].number <= Head(net[i]) + 1
    {
      assert rest[i] == net[i + 1];
    }
  }

  lemma {:induction false} JoinedDeliver(st: State)
    requires Sound(st) && Joined(st) && |st.net| > 0
    ensures Joined(DeliverFrame(st))
  {
    var f := st.net[0];
    assert FrameTrue(Logs(st), f);
    TrueIsGood(Logs(st), f);
    FrameKeepsNext(Logs(st), st.home, st.told, st.page, f);
    FrameOutcome(st.page, f);
    DeliverKeepsJoin(st.page.boot, st.page.last, st.net);
    if st.conn.Some? { DeliverKeepsReach(Boot(st), st.page, Framed(st.page, f), st.net); }
  }

  lemma {:induction false} JoinedElsewhere(st: State, step: Step)
    requires Joined(st)
    requires step.SetCapacity? || step.Connect? || step.Cut? || step.Restart? || step.Clear?
    ensures Joined(Next(st, step))
  {
  }

  lemma {:induction false} JoinedTake(st: State)
    requires Joined(st) && TakeLine(st) != st
    ensures Joined(TakeLine(st))
  {
    TakeKeepsStream(st.conn.value);
  }

  lemma {:induction false} BeforeYield(st: State)
    requires Sound(st) && YieldBatch(st) != st
    ensures st.conn.value.snap.Some?
    ensures |st.net| > 0 ==> st.net[0].boot == Boot(st)
  {
  }

  lemma {:induction false} JoinedStep(st: State, step: Step)
    requires Sound(st) && Calm(st) && Joined(st) && Smooth(st, step)
    ensures Joined(Next(st, step))
  {
    match step
    case Emit(text) => JoinedEmit(st, text);
    case Snapshot => if TakeSnapshot(st) != st { BeforeSnapshot(st); JoinedSnapshot(st); }
    case Take => if TakeLine(st) != st { JoinedTake(st); }
    case Yield => if YieldBatch(st) != st { BeforeYield(st); JoinedYield(st); }
    case Deliver => if |st.net| > 0 { JoinedDeliver(st); }
    case Load => SoundLoad(st);
    case _ => JoinedElsewhere(st, step);
  }

  lemma {:induction false} JoinedRun(limit: int, steps: seq<Step>)
    requires RanSmoothly(limit, steps)
    ensures KeptUp(limit, steps) && Joined(Run(Start(limit), steps))
  {
    forall k {:trigger steps[k]} | 0 <= k < |steps|
      ensures KeepsUp(Run(Start(limit), steps[..k]), steps[k])
    {
      assert Smooth(Run(Start(limit), steps[..k]), steps[k]);
    }
    if |steps| == 0 {
      SoundLoad(State([], Opened(limit), None, false, [], Page(1, 0, [], 0), 1, [], []));
    } else {
      var front := steps[..|steps| - 1];
      assert forall k :: 0 <= k < |front| ==> front[k] == steps[k] && front[..k] == steps[..k];
      JoinedRun(limit, front);
      CalmRun(limit, front);
      JoinedStep(Run(Start(limit), front), steps[|steps| - 1]);
    }
  }

  // What the reader sees

  /** MAIN: in every run, all rows ever shown are genuine lines; between two restart rows they belong
      to one process and stand in the order it emitted them, none twice; and the pane holds the
      last of them. */
  lemma {:induction false} OrderedAlways(limit: int, steps: seq<Step>, i: nat, j: nat)
    requires i < j < |Run(Start(limit), steps).told|
    requires forall k :: i <= k <= j ==> Run(Start(limit), steps).told[k].row.Shown?
    ensures
      var st := Run(Start(limit), steps);
      && IsTold(Logs(st), st.told[i]) && IsTold(Logs(st), st.told[j])
      && st.told[i].boot == st.told[j].boot
      && st.told[i].row.line.number < st.told[j].row.line.number
      && PaneIsTail(st.page.pane, st.told)
  {
    var st := Run(Start(limit), steps);
    SoundRun(limit, steps);
    InOrder(Logs(st), st.home, st.told, i, j);
  }

  lemma {:induction false} InOrder(logs: seq<seq<string>>, home: BootId, told: seq<Told>, i: nat, j: nat)
    requires Telling(logs, home, told) && i < j < |told|
    requires forall k :: i <= k <= j ==> told[k].row.Shown?
    ensures told[i].boot == told[j].boot && told[i].row.line.number < told[j].row.line.number
    decreases j - i
  {
    assert Follows(home, told, j);
    assert told[..j][|told[..j]| - 1] == told[j - 1];
    if i < j - 1 { InOrder(logs, home, told, i, j - 1); }
  }

  lemma {:induction false} BootsClimb(logs: seq<seq<string>>, home: BootId, told: seq<Told>, i: nat, j: nat)
    requires Telling(logs, home, told) && AllReal(home, told) && i <= j < |told|
    ensures told[i].boot <= told[j].boot
    ensures told[i].boot == told[j].boot ==> forall k :: i < k <= j ==> told[k].row.Shown?
    decreases j - i
  {
    if i < j {
      BootsClimb(logs, home, told, i, j - 1);
      assert IsTold(logs, told[j]);
      assert Follows(home, told, j) && RealRestart(home, told, j);
      assert told[..j][|told[..j]| - 1] == told[j - 1];
    }
  }

  /** MAIN: while no line is dropped before a snapshot, a restart row appears exactly where the process
      changed, processes come in their order, and no line is ever shown twice. */
  lemma {:induction false} RestartRowsAreTrue(limit: int, steps: seq<Step>, i: nat, j: nat)
    requires KeptUp(limit, steps) && i < j < |Run(Start(limit), steps).told|
    ensures
      var told, home := Run(Start(limit), steps).told, Run(Start(limit), steps).home;
      && (told[j].row.Marker? <==> BootAt(home, told[..j]) != told[j].boot)
      && told[i].boot <= told[j].boot
      && (told[i].row.Shown? && told[j].row.Shown? && told[i].boot == told[j].boot ==>
            told[i].row.line.number < told[j].row.line.number)
  {
    var st := Run(Start(limit), steps);
    CalmRun(limit, steps);
    RestartsInOrder(Logs(st), st.home, st.told, i, j);
  }

  lemma {:induction false} RestartsInOrder(logs: seq<seq<string>>, home: BootId, told: seq<Told>, i: nat, j: nat)
    requires Telling(logs, home, told) && AllReal(home, told) && i < j < |told|
    ensures told[j].row.Marker? <==> BootAt(home, told[..j]) != told[j].boot
    ensures told[i].boot <= told[j].boot
    ensures told[i].row.Shown? && told[j].row.Shown? && told[i].boot == told[j].boot ==>
      told[i].row.line.number < told[j].row.line.number
  {
    assert IsTold(logs, told[j]);
    assert Follows(home, told, j) && RealRestart(home, told, j);
    BootsClimb(logs, home, told, i, j);
    if told[i].row.Shown? && told[i].boot == told[j].boot { InOrder(logs, home, told, i, j); }
  }

  lemma {:induction false} NextInARow(home: BootId, told: seq<Told>, i: nat, j: nat)
    requires AllNext(told) && i <= j < |told|
    requires forall k :: i <= k <= j ==> told[k].row.Shown? && told[k].row.line.number >= 1
    ensures told[j].row.line.number == told[i].row.line.number + (j - i)
    decreases j - i
  {
    if i < j {
      NextInARow(home, told, i, j - 1);
      assert NoHole(told, j);
      assert told[..j][|told[..j]| - 1] == told[j - 1];
    }
  }

  /** MAIN: while no line is dropped and each snapshot reaches back to the page, the rows of one
      process are its lines, each exactly once and none left out between the first and the last. */
  lemma {:induction false} EveryLineOnce(limit: int, steps: seq<Step>, i: nat, j: nat)
    requires RanSmoothly(limit, steps) && i <= j < |Run(Start(limit), steps).told|
    requires
      var told := Run(Start(limit), steps).told;
      told[i].row.Shown? && told[j].row.Shown? && told[i].boot == told[j].boot
    ensures
      var told := Run(Start(limit), steps).told;
      told[j].row.line.number == told[i].row.line.number + (j - i)
  {
    var st := Run(Start(limit), steps);
    JoinedRun(limit, steps);
    CalmRun(limit, steps);
    BootsClimb(Logs(st), st.home, st.told, i, j);
    forall k | i <= k <= j
      ensures st.told[k].row.Shown? && st.told[k].row.line.number >= 1
    {
      assert IsTold(Logs(st), st.told[k]);
    }
    NextInARow(st.home, st.told, i, j);
  }

  /** MAIN: then, once nothing is under way, the page ends with the newest line. */
  lemma {:induction false} QuietPageIsCurrent(limit: int, steps: seq<Step>)
    requires RanSmoothly(limit, steps)
    requires
      var st := Run(Start(limit), steps);
      && st.conn.Some? && st.conn.value.snap.Some? && |Stream(st.conn.value)| == 0
      && |st.net| == 0 && |st.buffer.log| > 0
    ensures
      var st := Run(Start(limit), steps);
      && |st.told| > 0
      && st.told[|st.told| - 1] == Told(Boot(st),
           Shown(Line(|st.buffer.log|, st.buffer.log[|st.buffer.log| - 1])))
  {
    JoinedRun(limit, steps);
    CalmRun(limit, steps);
    QuietState(Run(Start(limit), steps));
  }

  lemma {:induction false} QuietState(st: State)
    requires PageTrue(st) && st.conn.Some? && |st.net| == 0 && |st.buffer.log| > 0
    requires ConnCalm(st.conn.value, Boot(st), st.buffer.log, st.page, [])
    requires ConnJoins(st.conn.value, Boot(st), st.buffer.log, st.page, [])
    requires st.conn.value.snap.Some? && |Stream(st.conn.value)| == 0
    ensures |st.told| > 0
    ensures st.told[|st.told| - 1] == Told(Boot(st),
      Shown(Line(|st.buffer.log|, st.buffer.log[|st.buffer.log| - 1])))
  {
    assert st.page.last == |st.buffer.log| == LastAt(st.told);
    assert IsTold(Logs(st), st.told[|st.told| - 1]);
  }

  // When a snapshot reaches back to the page

  /** No line finds the queue full, a snapshot comes before more than `low` lines have followed
      the page's last row, and the capacity is never set below `low`. */
  predicate Near(st: State, step: Step, low: nat)
  {
    && (step.Emit? && st.conn.Some? ==> |st.conn.value.queue| < QUEUE_MAX)
    && (step.Snapshot? && st.page.boot == Boot(st) ==> |st.buffer.log| - st.page.last <= low)
    && (step.SetCapacity? || step.Restart? ==> low <= AtLeastOne(step.limit))
  }

  ghost predicate RanNear(limit: int, steps: seq<Step>, low: nat)
  {
    && 1 <= low <= AtLeastOne(limit)
    && forall k {:trigger steps[k]} :: 0 <= k < |steps| ==> Near(Run(Start(limit), steps[..k]), steps[k], low)
  }

  /** What the current process did to its buffer since it started. */
  ghost predicate Became(b: Buffer, limit: int, changes: seq<Change>, low: nat)
  {
    b == After(Opened(limit), changes) && low <= AtLeastOne(limit) && NeverBelow(changes, low)
  }

  lemma {:induction false} BecamePush(b: Buffer, limit: int, changes: seq<Change>, low: nat, change: Change)
    requires Became(b, limit, changes, low) && (change.Resize? ==> low <= AtLeastOne(change.capacity))
    ensures Became(Changed(b, change), limit, changes + [change], low)
  {
    assert (changes + [change])[..|changes|] == changes;
  }

  lemma {:induction false} BufferBecame(limit: int, steps: seq<Step>, low: nat)
      returns (first: int, changes: seq<Change>)
    requires RanNear(limit, steps, low)
    ensures Became(Run(Start(limit), steps).buffer, first, changes, low)
  {
    first, changes := limit, [];
    if |steps| > 0 {
      var front, step := steps[..|steps| - 1], steps[|steps| - 1];
      assert forall k :: 0 <= k < |front| ==> front[k] == steps[k] && front[..k] == steps[..k];
      first, changes := BufferBecame(limit, front, low);
      var b := Run(Start(limit), front).buffer;
      assert Near(Run(Start(limit), front), step, low);
      match step {
        case Emit(text) =>
          BecamePush(b, first, changes, low, Grow(text));
          changes := changes + [Grow(text)];
        case SetCapacity(c) =>
          BecamePush(b, first, changes, low, Resize(c));
          changes := changes + [Resize(c)];
        case Restart(c) => first, changes := c, [];
        case _ =>
      }
    }
  }

  lemma {:induction false} NearIsSmooth(limit: int, steps: seq<Step>, low: nat, k: nat)
    requires RanNear(limit, steps, low) && k < |steps|
    ensures Smooth(Run(Start(limit), steps[..k]), steps[k])
  {
    var front := steps[..k];
    assert forall i :: 0 <= i < k ==> front[i] == steps[i] && front[..i] == steps[..i];
    var first, changes := BufferBecame(limit, front, low);
    assert Near(Run(Start(limit), front), steps[k], low);
    RingReachesBack(Opened(first), changes, low, Run(Start(limit), front).page.last);
  }

  /** MAIN: the same in plain terms: while no queue fills up, and every snapshot is taken before
      more than a capacity's worth of lines has followed the page's last row, the rows of one
      process are its lines, each exactly once and none left out. */
  lemma {:induction false} EveryLineOnceWhenNear(limit: int, steps: seq<Step>, low: nat, i: nat, j: nat)
    requires RanNear(limit, steps, low) && i <= j < |Run(Start(limit), steps).told|
    requires
      var told := Run(Start(limit), steps).told;
      told[i].row.Shown? && told[j].row.Shown? && told[i].boot == told[j].boot
    ensures RanSmoothly(limit, steps)
    ensures
      var told := Run(Start(limit), steps).told;
      told[j].row.line.number == told[i].row.line.number + (j - i)
  {
    forall k {:trigger steps[k]} | 0 <= k < |steps|
      ensures Smooth(Run(Start(limit), steps[..k]), steps[k])
    {
      NearIsSmooth(limit, steps, low, k);
    }
    EveryLineOnce(limit, steps, i, j);
  }
}
