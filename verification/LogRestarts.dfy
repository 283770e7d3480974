/** When the log page reports a restart: exactly which frames bring a restart row, over every run,
    also when lines are dropped before a snapshot. */
module LogRestarts {
  import opened Common
  import opened LogRing
  import opened LogsView
  import opened LogTelling
  import opened LogDelivery
  import opened LogContinuity

  // What every run keeps

  /** A frame falls behind what came before it exactly when it is an overrun first batch. */
  ghost predicate BehindIffOverrun(o: Origin, before: nat, f: Frame)
  {
    Head(f) < before <==> o == OfFirstBatch(true)
  }

  ghost predicate NetTraced(boot: BootId, last: nat, net: seq<Frame>, origins: seq<Origin>)
  {
    && |origins| == |net|
    && (|net| > 0 && net[0].boot == boot ==> BehindIffOverrun(origins[0], last, net[0]))
    && (|net| > 0 && net[0].boot != boot ==> origins[0] != OfFirstBatch(true))
    && (forall i {:trigger net[i]} :: 0 < i < |net| ==> BehindIffOverrun(origins[i], Head(net[i - 1]), net[i]))
  }

  /** A stream that has sent a batch goes on from there; one that has only sent a snapshot with
      lines in it has put the page on its process. */
  ghost predicate ConnTraced(c: Conn, boot: BootId, log: seq<string>, page: Page, net: seq<Frame>)
  {
    && (c.sent ==>
          && Reach(boot, page, net) <= |log|
          && (|Stream(c)| > 0 ==> Reach(boot, page, net) <= Top(Stream(c))))
    && (c.snap.Some? && !c.sent && c.snap.value > 0 && |net| == 0 ==> page.boot == boot)
  }

  ghost predicate Traced(st: State)
  {
    && NetTraced(st.page.boot, st.page.last, st.net, st.origins)
    && (st.conn.Some? ==> ConnTraced(st.conn.value, Boot(st), st.buffer.log, st.page, st.net))
  }

  lemma {:induction false} TracedEmit(st: State, text: string)
    requires Traced(st)
    ensures Traced(Next(st, Emit(text)))
  {
    if st.conn.Some? {
      var c, line := st.conn.value, Line(|st.buffer.log| + 1, text);
      if |c.queue| < QUEUE_MAX { assert Stream(Offer(st.conn, line).value) == Stream(c) + [line]; }
    }
  }

  lemma {:induction false} TracedSnapshot(st: State)
    requires Sound(st) && Traced(st) && st.conn.Some? && st.conn.value.snap.None?
    ensures Traced(TakeSnapshot(st))
  {
    var b := st.buffer;
    StretchIsTrue(b.log, Forgotten(b), b.lines);
    if st.page.boot == Boot(st) { WatermarkInLog(st); }
  }

  lemma {:induction false} TracedTake(st: State)
    requires Traced(st)
    ensures Traced(TakeLine(st))
  {
    if TakeLine(st) != st { TakeKeepsStream(st.conn.value); }
  }

  /** How the next batch compares with what came before it. */
  lemma {:induction false} BatchIsTraced(st: State)
    requires Sound(st) && Traced(st) && YieldBatch(st) != st
    ensures
      var c := st.conn.value;
      var f, o := Frame(Boot(st), c.pending), YieldBatch(st).origins[|st.origins|];
      && (|st.net| > 0 ==> BehindIffOverrun(o, Head(st.net[|st.net| - 1]), f))
      && (|st.net| == 0 && st.page.boot == Boot(st) ==> BehindIffOverrun(o, st.page.last, f))
      && (|st.net| == 0 && st.page.boot != Boot(st) ==> o != OfFirstBatch(true))
  {
    var c := st.conn.value;
    assert Stream(c) == c.pending;
    if !c.sent { BatchFallsBehindIff(c, st.buffer.log, c.snap.value); }
  }

  lemma {:induction false} NetTracedPush(boot: BootId, last: nat, net: seq<Frame>, origins: seq<Origin>,
      f: Frame, o: Origin)
    requires NetTraced(boot, last, net, origins)
    requires |net| > 0 ==> BehindIffOverrun(o, Head(net[|net| - 1]), f)
    requires |net| == 0 && f.boot == boot ==> BehindIffOverrun(o, last, f)
    requires |net| == 0 && f.boot != boot ==> o != OfFirstBatch(true)
    ensures NetTraced(boot, last, net + [f], origins + [o])
  {
    var more := net + [f];
    forall i {:trigger more[i]} | 0 < i < |more|
      ensures BehindIffOverrun((origins + [o])[i], Head(more[i - 1]), more[i])
    {
      if i < |net| { assert more[i] == net[i] && more[i - 1] == net[i - 1]; }
    }
  }

  lemma {:induction false} TracedYield(st: State)
    requires Sound(st) && Traced(st) && YieldBatch(st) != st
    ensures Traced(YieldBatch(st))
  {
    var c, st' := st.conn.value, YieldBatch(st);
    BatchIsTraced(st);
    NetTracedPush(st.page.boot, st.page.last, st.net, st.origins,
      Frame(Boot(st), c.pending), st'.origins[|st.origins|]);
    assert Stream(c) == c.pending && Stream(st'.conn.value) == [];
    assert IsLine(st.buffer.log, c.pending[|c.pending| - 1]);
  }

  lemma {:induction false} NetTracedPop(boot: BootId, last: nat, net: seq<Frame>, origins: seq<Origin>)
    requires |net| > 0 && NetTraced(boot, last, net, origins)
    requires |net| > 1 ==> net[1].boot == net[0].boot
    ensures NetTraced(net[0].boot, Head(net[0]), net[1..], origins[1..])
  {
    var rest := net[1..];
    forall i {:trigger rest[i]} | 0 < i < |rest|
      ensures BehindIffOverrun(origins[1..][i], Head(rest[i - 1]), rest[i])
    {
      assert rest[i] == net[i + 1] && rest[i - 1] == net[i];
    }
    if |net| > 1 { assert BehindIffOverrun(origins[1], Head(net[0]), net[1]); }
  }

  lemma {:induction false} TracedDeliver(st: State)
    requires Sound(st) && Traced(st) && |st.net| > 0
    ensures Traced(DeliverFrame(st))
  {
    var f := st.net[0];
    assert FrameTrue(Logs(st), f);
    TrueIsGood(Logs(st), f);
    FrameOutcome(st.page, f);
    assert |st.net| > 1 ==> st.net[1].boot == f.boot;
    NetTracedPop(st.page.boot, st.page.last, st.net, st.origins);
    if st.conn.Some? { DeliverKeepsReach(Boot(st), st.page, Framed(st.page, f), st.net); }
  }

  lemma {:induction false} TracedElsewhere(st: State, step: Step)
    requires Traced(st)
    requires step.SetCapacity? || step.Connect? || step.Cut? || step.Restart? || step.Load? || step.Clear?
    ensures Traced(Next(st, step))
  {
  }

  lemma {:induction false} TracedStep(st: State, step: Step)
    requires Sound(st) && Traced(st)
    ensures Traced(Next(st, step))
  {
    match step
    case Emit(text) => TracedEmit(st, text);
    case Snapshot => if TakeSnapshot(st) != st { TracedSnapshot(st); }
    case Take => TracedTake(st);
    case Yield => if YieldBatch(st) != st { TracedYield(st); }
    case Deliver => if |st.net| > 0 { TracedDeliver(st); }
    case _ => TracedElsewhere(st, step);
  }

  lemma {:induction false} TracedRun(limit: int, steps: seq<Step>)
    ensures Sound(Run(Start(limit), steps)) && Traced(Run(Start(limit), steps))
  {
    SoundRun(limit, steps);
    if |steps| > 0 {
      var front := steps[..|steps| - 1];
      TracedRun(limit, front);
      TracedStep(Run(Start(limit), front), steps[|steps| - 1]);
    }
  }

  // Which frames bring a restart row

  /** The page takes the frame that arrives next for one of a restarted process. */
  predicate ReportsRestart(st: State)
  {
    |DeliverFrame(st).told| > |st.told| && DeliverFrame(st).told[|st.told|].row.Marker?
  }

  /** MAIN: in every run, whatever is dropped and however frames and batches interleave, the frame
      that arrives next brings a restart row iff its process is a later one than the page's, or
      it is the first batch of its stream and the queue had dropped every line from the
      snapshot's newest one on. In the second case the page is on that process already: no other
      frame brings a false restart, and each of these does. */
  lemma {:induction false} FalseRestartIff(limit: int, steps: seq<Step>)
    requires |Run(Start(limit), steps).net| > 0
    ensures
      var st := Run(Start(limit), steps);
      && Run(Start(limit), steps + [Deliver]) == DeliverFrame(st)
      && |st.origins| == |st.net|
      && (ReportsRestart(st) <==> st.page.boot < st.net[0].boot || st.origins[0] == OfFirstBatch(true))
      && (st.origins[0] == OfFirstBatch(true) ==> st.page.boot == st.net[0].boot)
  {
    TracedRun(limit, steps);
    RestartState(Run(Start(limit), steps));
    RunPush(Start(limit), steps, Deliver);
  }

  lemma {:induction false} RestartState(st: State)
    requires Sound(st) && Traced(st) && |st.net| > 0
    ensures ReportsRestart(st) <==> st.page.boot < st.net[0].boot || st.origins[0] == OfFirstBatch(true)
    ensures st.origins[0] == OfFirstBatch(true) ==> st.page.boot == st.net[0].boot
  {
    var f := st.net[0];
    assert FrameTrue(Logs(st), f);
    TrueIsGood(Logs(st), f);
    MarkerIffRestarted(st.told, st.page, f);
  }

  lemma {:induction false} MarkerIffRestarted(told: seq<Told>, p: Page, f: Frame)
    requires GoodFrame(f) && p.boot != NO_BOOT
    ensures (|Retold(told, p, f)| > |told| && Retold(told, p, f)[|told|].row.Marker?)
      <==> f.boot != p.boot || Head(f) < p.last
  {
    FrameOutcome(p, f);
  }

  lemma {:induction false} RunPush(st: State, steps: seq<Step>, step: Step)
    ensures Run(st, steps + [step]) == Next(Run(st, steps), step)
  {
    assert (steps + [step])[..|steps|] == steps;
  }

  lemma {:induction false} BatchFallsBehindIff(c: Conn, log: seq<string>, snap: nat)
    requires Accounted(c, log) && TrueLines(log, Stream(c)) && |Stream(c)| > 0
    ensures Top(Stream(c)) < snap <==> forall s :: snap <= s <= |log| ==> s in c.missed
  {
    var lines := Stream(c);
    var last := lines[|lines| - 1];
    assert IsLine(log, last) && last in lines;
    forall s: nat | HasNumber(lines, s)
      ensures s <= last.number
    {
      NumbersUpToTop(lines, s);
    }
  }

  lemma {:induction false} NumbersUpToTop(lines: seq<Line>, s: nat)
    requires Ascending(lines) && HasNumber(lines, s)
    ensures s <= Top(lines)
  {
    var i :| 0 <= i < |lines| && lines[i].number == s;
    if i < |lines| - 1 { assert lines[i].number < lines[|lines| - 1].number; }
  }

  function Repeated(step: Step, n: nat): seq<Step>
  {
    if n == 0 then [] else Repeated(step, n - 1) + [step]
  }

  lemma {:induction false} RunRepeated(st: State, steps: seq<Step>, step: Step, n: nat)
    requires n > 0
    ensures Run(st, steps + Repeated(step, n)) == Next(Run(st, steps + Repeated(step, n - 1)), step)
  {
    assert steps + Repeated(step, n) == (steps + Repeated(step, n - 1)) + [step];
    RunPush(st, steps + Repeated(step, n - 1), step);
  }

  /** A fresh page whose stream has subscribed, after `n` lines and before its snapshot. */
  ghost predicate Flooded(st: State, n: nat)
  {
    && st.conn.Some? && st.net == [] && st.told == [] && |st.past| == 0 && st.page.boot == 1
    && |st.buffer.log| == n && st.open
    && var c := st.conn.value;
       && c.since == 0 && c.snap.None? && !c.sent && c.pending == []
       && |c.queue| == (if n <= QUEUE_MAX then n else QUEUE_MAX)
       && (forall s :: s in c.missed <==> QUEUE_MAX < s <= n)
  }

  lemma {:induction false} FloodStep(st: State, n: nat, text: string)
    requires Flooded(st, n)
    ensures Flooded(Next(st, Emit(text)), n + 1)
  {
  }

  lemma {:induction false} FloodStart(limit: int)
    ensures Flooded(Run(Start(limit), [] + [Connect]), 0)
  {
    RunPush(Start(limit), [], Connect);
  }

  lemma {:induction false} Flood(limit: int, n: nat, text: string)
    ensures Flooded(Run(Start(limit), [Connect] + Repeated(Emit(text), n)), n)
  {
    if n == 0 {
      assert [Connect] + Repeated(Emit(text), 0) == [] + [Connect];
      FloodStart(limit);
    } else {
      Flood(limit, n - 1, text);
      RunRepeated(Start(limit), [Connect], Emit(text), n);
      FloodStep(Run(Start(limit), [Connect] + Repeated(Emit(text), n - 1)), n - 1, text);
    }
  }

  /** The same after the snapshot and `k` steps of draining. */
  ghost predicate Draining(st: State, n: nat, k: nat)
  {
    && st.conn.Some? && |st.past| == 0 && st.page.boot == 1 && st.net == []
    && |st.buffer.log| == n
    && var c := st.conn.value;
       && c.snap == Some(n) && !c.sent && |c.pending| == k && |c.queue| == QUEUE_MAX - k
       && (forall s :: s in c.missed <==> QUEUE_MAX < s <= n)
  }

  lemma {:induction false} DrainStep(st: State, n: nat, k: nat)
    requires k < QUEUE_MAX && Draining(st, n, k)
    ensures Draining(TakeLine(st), n, k + 1)
  {
  }

  lemma {:induction false} Drain(limit: int, steps: seq<Step>, n: nat, k: nat)
    requires k <= QUEUE_MAX && Draining(Run(Start(limit), steps), n, 0)
    ensures Draining(Run(Start(limit), steps + Repeated(Take, k)), n, k)
  {
    if k == 0 {
      assert steps + Repeated(Take, 0) == steps;
    } else {
      Drain(limit, steps, n, k - 1);
      RunRepeated(Start(limit), steps, Take, k);
      DrainStep(Run(Start(limit), steps + Repeated(Take, k - 1)), n, k - 1);
    }
  }

  lemma {:induction false} SnapshotArrives(st: State, n: nat)
    requires IsRing(st.buffer) && Flooded(st, n) && n > QUEUE_MAX
    ensures Draining(DeliverFrame(TakeSnapshot(st)), n, 0)
  {
    var f := Frame(1, st.buffer.lines);
    StretchIsTrue(st.buffer.log, Forgotten(st.buffer), st.buffer.lines);
    FrameOutcome(st.page, f);
    assert TakeSnapshot(st).net == [f];
    assert [f][1..] == [];
  }

  predicate ShowsRestart(st: State)
  {
    |st.past| == 0 && exists i :: 0 <= i < |st.told| && st.told[i].row.Marker?
  }

  lemma {:induction false} BatchArrives(st: State, n: nat)
    requires Sound(st) && Traced(st) && Draining(st, n, QUEUE_MAX) && n > QUEUE_MAX
    ensures ShowsRestart(DeliverFrame(YieldBatch(st)))
  {
    assert Overrun(st.conn.value, n);
    SoundYield(st);
    TracedYield(st);
    RestartState(YieldBatch(st));
  }

  /** More lines than the queue holds, between subscribing and the snapshot, and the page reports
      a restart of a process that never restarted. */
  lemma {:induction false} FalseRestartHappens(limit: int, text: string, n: nat, room: nat)
    requires n > QUEUE_MAX && room == QUEUE_MAX
    ensures
      var flood := [Connect] + Repeated(Emit(text), n) + [Snapshot, Deliver];
      ShowsRestart(Run(Start(limit), flood + Repeated(Take, room) + [Yield, Deliver]))
  {
    var first := [Connect] + Repeated(Emit(text), n);
    Flood(limit, n, text);
    FloodedRun(limit, first, n, room);
  }

  lemma {:induction false} FloodedRun(limit: int, first: seq<Step>, n: nat, room: nat)
    requires Flooded(Run(Start(limit), first), n) && n > QUEUE_MAX && room == QUEUE_MAX
    ensures ShowsRestart(
      Run(Start(limit), first + [Snapshot, Deliver] + Repeated(Take, room) + [Yield, Deliver]))
  {
    SnapshotRun(limit, first, n);
    Drain(limit, first + [Snapshot, Deliver], n, room);
    BatchRun(limit, first + [Snapshot, Deliver] + Repeated(Take, room), n);
  }

  lemma {:induction false} SnapshotRun(limit: int, steps: seq<Step>, n: nat)
    requires Flooded(Run(Start(limit), steps), n) && n > QUEUE_MAX
    ensures Draining(Run(Start(limit), steps + [Snapshot, Deliver]), n, 0)
  {
    var st := Run(Start(limit), steps);
    SoundRun(limit, steps);
    SnapshotArrives(st, n);
    RunPushTwo(Start(limit), steps, Snapshot, Deliver);
    TwoNext(st);
  }

  lemma {:induction false} TwoNext(st: State)
    ensures Next(Next(st, Snapshot), Deliver) == DeliverFrame(TakeSnapshot(st))
    ensures Next(Next(st, Yield), Deliver) == DeliverFrame(YieldBatch(st))
  {
  }

  lemma {:induction false} BatchRun(limit: int, steps: seq<Step>, n: nat)
    requires Draining(Run(Start(limit), steps), n, QUEUE_MAX) && n > QUEUE_MAX
    ensures ShowsRestart(Run(Start(limit), steps + [Yield, Deliver]))
  {
    TracedRun(limit, steps);
    BatchArrives(Run(Start(limit), steps), n);
    TwoNext(Run(Start(limit), steps));
    RunPushTwo(Start(limit), steps, Yield, Deliver);
  }

  lemma {:induction false} RunPushTwo(st: State, steps: seq<Step>, a: Step, b: Step)
    ensures Run(st, steps + [a, b]) == Next(Next(Run(st, steps), a), b)
  {
    assert steps + [a, b] == (steps + [a]) + [b];
    RunPush(st, steps, a);
    RunPush(st, steps + [a], b);
  }
}
