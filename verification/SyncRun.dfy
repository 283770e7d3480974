/** A whole sync run (blackvuesync/sync.py): preparation, pruning, the downloads of every
    artifact of every selected recording, and what the publisher and the metrics count. */
module SyncRun {
  import opened Common
  import opened Download
  import opened Recordings
  import opened Progress

  datatype Metrics = Metrics(files: nat, bytes: nat, failures: nat)

  datatype Counters = Counters(p: SyncProgress, m: Metrics)

  /** The callbacks and metrics calls of one event of a download of `name`. */
  function Observe(c: Counters, name: string, e: Event): Counters
  {
    match e
    case Started => c.(p := FileStarted(c.p, name, 0))
    case Chunk(downloaded, total) => c.(p := BytesUpdated(c.p, downloaded, total))
    case CountFile(transferred) => c.(m := c.m.(files := c.m.files + 1, bytes := c.m.bytes + transferred))
    case CountFailure(_) => c.(m := c.m.(failures := c.m.failures + 1))
    case _ => c
  }

  function ObserveAll(c: Counters, name: string, events: seq<Event>): Counters
    decreases |events|
  {
    if |events| == 0 then c
    else Observe(ObserveAll(c, name, events[..|events| - 1]), name, events[|events| - 1])
  }

  datatype Config = Config(
    o: Options, selection: Selection, table: seq<Artifact>, skip: set<Artifact>,
    order: seq<Recording> -> seq<Recording>)

  /** The artifact table is the fixed one, and sorting by priority only reorders. */
  ghost predicate ValidConfig(cfg: Config)
  {
    && ValidGrouping(cfg.selection.grouping)
    && cfg.table == ARTIFACTS
    && (forall s :: multiset(cfg.order(s)) == multiset(s))
  }

  /** What one call of download_file meets. */
  datatype CallEnv = CallEnv(dirOk: bool, attempts: seq<Attempt>)

  /** What a run meets: its n-th call of download_file if that is for a given name, and the
      disk check before its n-th recording. */
  datatype World = World(call: (nat, string) -> CallEnv, diskFull: nat -> bool)

  datatype RunState = RunState(
    dest: Dest, c: Counters, calls: nat, begun: nat, raised: bool, log: seq<Event>)

  predicate Skips(skip: set<Artifact>, a: Artifact) { a != Mp4 && a in skip }

  function Unskipped(skip: set<Artifact>, kinds: seq<Artifact>): nat
    decreases |kinds|
  {
    if |kinds| == 0 then 0 else (if Skips(skip, kinds[0]) then 0 else 1) + Unskipped(skip, kinds[1..])
  }

  /** How _dl reports the end of a call to the publisher. */
  function Reported(p: SyncProgress, name: string, started: bool, outcome: Outcome): SyncProgress
  {
    match outcome
    case Returned(ok) =>
      if started then FileFinished(p, ok)
      else if ok then FileFinished(FileStarted(p, name, 0), true)
      else FileSkipped(p)
    case _ => FileFinished(if started then p else FileStarted(p, name, 0), false)
  }

  /** One artifact: download_file wrapped by _dl. Attempts that run out stand for Python's
      recursion limit, an exception like any other. */
  function Dl(cfg: Config, w: World, s: RunState, r: Recording, a: Artifact): RunState
  {
    var name := FileName(r, a);
    var env := w.call(s.calls, name);
    var run := Call(cfg.o, env.dirOk, s.dest, r.dir, name, env.attempts);
    var c := ObserveAll(s.c, name, run.events);
    s.(dest := run.dest,
       c := c.(p := Reported(c.p, name, Started in run.events, run.outcome)),
       calls := s.calls + 1, raised := !run.outcome.Returned?, log := s.log + run.events)
  }

  function DlArtifacts(cfg: Config, w: World, s: RunState, r: Recording, kinds: seq<Artifact>): RunState
    decreases |kinds|
  {
    if |kinds| == 0 || s.raised then s
    else if Skips(cfg.skip, kinds[0]) then DlArtifacts(cfg, w, s, r, kinds[1..])
    else DlArtifacts(cfg, w, Dl(cfg, w, s, r, kinds[0]), r, kinds[1..])
  }

  /** download_recording: a full disk raises before the first artifact. */
  function DlRecording(cfg: Config, w: World, s: RunState, r: Recording): RunState
  {
    var s' := s.(begun := s.begun + 1);
    if w.diskFull(s.begun) then
      s'.(raised := true, c := s.c.(m := s.c.m.(failures := s.c.m.failures + 1)))
    else DlArtifacts(cfg, w, s', r, cfg.table)
  }

  function DlRecordings(cfg: Config, w: World, s: RunState, rs: seq<Recording>): RunState
    decreases |rs|
  {
    if |rs| == 0 || s.raised then s
    else DlRecordings(cfg, w, DlRecording(cfg, w, s, rs[0]), rs[1..])
  }

  function Wants(cfg: Config, listing: seq<string>): seq<Recording>
  {
    cfg.order(Selected(listing, cfg.selection))
  }

  /** The state in which the download loop starts. */
  function Ready(cfg: Config, d: Dest, c: Counters, listing: seq<string>): RunState
  {
    var rs := Wants(cfg, listing);
    var prepared := Prepared(d, cfg.selection.grouping, cfg.selection.cutoff, cfg.o.dryRun);
    RunState(Pruned(prepared, Expected(rs), cfg.o.dryRun),
             c.(p := TotalSet(c.p, |rs| * Unskipped(cfg.skip, cfg.table))), 0, 0, false, [])
  }

  /** _sync_recordings on a listing. */
  function SyncRecordings(cfg: Config, w: World, d: Dest, c: Counters, listing: seq<string>): RunState
  {
    DlRecordings(cfg, w, Ready(cfg, d, c, listing), Wants(cfg, listing))
  }

  function FreshCounters(jobId: JobId): Counters { Counters(Begun(0, jobId), Metrics(0, 0, 0)) }

  // ---- what a call adds to the counters ------------------------------------------------------

  lemma {:induction false} ObserveAppend(c: Counters, name: string, a: seq<Event>, b: seq<Event>)
    ensures ObserveAll(c, name, a + b) == ObserveAll(ObserveAll(c, name, a), name, b)
    decreases |b|
  {
    if |b| == 0 {
      assert a + b == a;
    } else {
      var n := |b| - 1;
      assert (a + b)[..|a + b| - 1] == a + b[..n] && (a + b)[|a + b| - 1] == b[n];
      ObserveAppend(c, name, a, b[..n]);
    }
  }

  /** Apart from the current file, the publisher's counters do not move during a call. */
  predicate SameTotals(a: SyncProgress, b: SyncProgress)
  {
    b == a.(current := b.current)
  }

  lemma {:induction false} ObserveProgressed(c: Counters, name: string, chunks: seq<Bytes>, total: int, n: nat)
    requires n <= |chunks| && c.p.current.Some? && c.p.current.value.downloaded == 0
    ensures var c' := ObserveAll(c, name, Progressed(chunks, total, n));
      && SameTotals(c.p, c'.p) && c'.m == c.m
      && c'.p.current.Some? && c'.p.current.value.downloaded == |Flatten(chunks[..n])|
  {
    if n > 0 {
      var events := Progressed(chunks, total, n);
      assert events[..|events| - 1] == Progressed(chunks, total, n - 1);
      ObserveProgressed(c, name, chunks, total, n - 1);
    } else {
      assert chunks[..0] == [];
    }
  }

  predicate TransferCounted(c: Counters, name: string, t: Transferred)
  {
    var c' := ObserveAll(c, name, t.events);
    && SameTotals(c.p, c'.p) && c'.m == c.m && c'.p.current.Some?
    && (t.end.Done? ==> c'.p.current.value.downloaded == t.end.transferred)
  }

  lemma StreamCounts(c: Counters, files: map<Path, Bytes>, name: string, append: bool, total: int, reply: Reply)
    requires reply.Body? && c.p.current.Some? && c.p.current.value.downloaded == 0
    ensures TransferCounted(c, name, Streamed(files, name, append, total, reply))
  {
    ObserveProgressed(c, name, reply.chunks, total, Written(reply.chunks, reply.stopAt, 0));
  }

  lemma TransferCounts(c: Counters, files: map<Path, Bytes>, name: string, offset: nat, reply: Reply)
    requires c.p.current.Some? && c.p.current.value.downloaded == 0
    ensures TransferCounted(c, name, Transfer(files, name, offset, reply))
  {
    if reply.Body? {
      match ResumeDecision(reply.status, reply.length, reply.range, offset)
      case Some(Resume(total)) => StreamCounts(c, files, name, true, total, reply);
      case Some(Fresh(total)) => StreamCounts(c, files, name, false, total, reply);
      case _ =>
    }
  }

  /** A success adds one file and the bytes of the current file; anything else adds neither. */
  predicate Counted(before: Metrics, after: Metrics, p: SyncProgress, outcome: Outcome)
  {
    && p.current.Some?
    && after.files == before.files + (if outcome == Returned(true) then 1 else 0)
    && after.bytes == before.bytes + (if outcome == Returned(true) then p.current.value.downloaded else 0)
  }

  function OutcomeOf(t: Tried): Outcome { if t.Ended? then t.run.outcome else Pending }

  lemma ObserveSnoc(c: Counters, name: string, events: seq<Event>, e: Event)
    ensures ObserveAll(c, name, events + [e]) == Observe(ObserveAll(c, name, events), name, e)
  {
    assert (events + [e])[..|events + [e]| - 1] == events;
  }

  lemma SettleShape(dir: string, name: string, a: Attempt, offset: nat, t: Transferred, marks: map<Path, Mark>,
      before: seq<Event>)
    ensures var u := Settle(dir, name, a, offset, t, marks, before);
      || (OutcomeOf(u) != Returned(true) && Seen(u) == before)
      || (OutcomeOf(u) != Returned(true) && exists why :: Seen(u) == before + [CountFailure(why)])
      || (OutcomeOf(u) == Returned(true) && t.end.Done? && Seen(u) == before + [CountFile(t.end.transferred)])
  {
  }

  lemma SettleCounts(c: Counters, dir: string, name: string, a: Attempt, offset: nat, t: Transferred,
      marks: map<Path, Mark>, before: seq<Event>)
    requires var c' := ObserveAll(c, name, before);
      && SameTotals(c.p, c'.p) && c'.m == c.m && c'.p.current.Some?
      && (t.end.Done? ==> c'.p.current.value.downloaded == t.end.transferred)
    ensures var u := Settle(dir, name, a, offset, t, marks, before);
      var c' := ObserveAll(c, name, Seen(u));
      SameTotals(c.p, c'.p) && Counted(c.m, c'.m, c'.p, OutcomeOf(u))
  {
    SettleShape(dir, name, a, offset, t, marks, before);
    var seen := Seen(Settle(dir, name, a, offset, t, marks, before));
    if why :| seen == before + [CountFailure(why)] {
      ObserveSnoc(c, name, before, CountFailure(why));
    } else if t.end.Done? && seen == before + [CountFile(t.end.transferred)] {
      ObserveSnoc(c, name, before, CountFile(t.end.transferred));
    }
  }

  lemma TryCounts(c: Counters, o: Options, d: Dest, dir: string, name: string, a: Attempt)
    ensures var u := Try(o, d, dir, name, a);
      var c' := ObserveAll(c, name, Seen(u));
      && SameTotals(c.p, c'.p)
      && (if Blocked(d.marks, dir, name, a.now, o.retryAfter)
          then c' == c && u == Ended(Run(d, Returned(false), [RecentlyFailed]))
          else Started in Seen(u) && Counted(c.m, c'.m, c'.p, OutcomeOf(u)))
  {
    if Blocked(d.marks, dir, name, a.now, o.retryAfter) {
      assert [RecentlyFailed][..0] == [];
    } else {
      var marks := if a.unmarkOk then d.marks - {Marker(dir, name)} else d.marks;
      var offset := ResumeOffset(d.files, name);
      var t := Transfer(d.files, name, offset, a.reply(offset));
      var start := [Started, Request(name, offset)];
      assert start[..1] == [Started] && [Started][..0] == [];
      ObserveAppend(c, name, start, t.events);
      TransferCounts(ObserveAll(c, name, start), d.files, name, offset, a.reply(offset));
      SettleCounts(c, dir, name, a, offset, t, marks, start + t.events);
      SettleEvents(dir, name, a, offset, t, marks, start + t.events);
      assert Started == (start + t.events)[0];
    }
  }

  lemma {:induction false} CallCounts(c: Counters, o: Options, dirOk: bool, d: Dest, dir: string, name: string,
      attempts: seq<Attempt>)
    ensures var run := Call(o, dirOk, d, dir, name, attempts);
      var c' := ObserveAll(c, name, run.events);
      && SameTotals(c.p, c'.p)
      && (if Started in run.events then Counted(c.m, c'.m, c'.p, run.outcome)
          else c' == c && (run.outcome == Returned(true) ==> o.dryRun))
      && (o.dryRun ==> Started !in run.events)
    decreases |attempts|
  {
    var run := Call(o, dirOk, d, dir, name, attempts);
    assert forall e: Event :: ([e])[..0] == [];
    if (dir != "" && !dirOk) || Final(dir, name) in d.files || o.dryRun || |attempts| == 0 {
    } else {
      TryCounts(c, o, d, dir, name, attempts[0]);
      match Try(o, d, dir, name, attempts[0])
      case Ended(_) =>
      case Again(dest, events) =>
        var rest := Call(o, dirOk, dest, dir, name, attempts[1..]);
        ObserveAppend(c, name, events, rest.events);
        CallCounts(ObserveAll(c, name, events), o, dirOk, dest, dir, name, attempts[1..]);
    }
  }

  // ---- conservation ----------------------------------------------------------------------------

  /** Files reached so far are each completed, failed or skipped; the total leaves the skipped out. */
  predicate Conserved(s: RunState, all: nat)
  {
    var p := s.c.p;
    && p.completed + p.failed + p.skipped == s.calls <= all
    && p.filesTotal == all - p.skipped
  }

  /** The publisher and the metrics have seen the same bytes and, outside dry runs, the same files. */
  predicate Agreed(s: RunState, dryRun: bool)
  {
    && s.c.p.bytes == s.c.m.bytes
    && (!dryRun ==> s.c.p.completed == s.c.m.files)
  }

  lemma DlConserves(cfg: Config, w: World, s: RunState, r: Recording, a: Artifact, all: nat)
    requires Conserved(s, all) && s.calls < all && Agreed(s, cfg.o.dryRun)
    ensures var s' := Dl(cfg, w, s, r, a);
      Conserved(s', all) && s'.calls == s.calls + 1 && Agreed(s', cfg.o.dryRun)
  {
    var env := w.call(s.calls, FileName(r, a));
    CallCounts(s.c, cfg.o, env.dirOk, s.dest, r.dir, FileName(r, a), env.attempts);
  }

  /** How one artifact is counted: completed iff the call reports success; skipped, with nothing
      else changed, if its file is there already; a call that raises or that began a transfer and
      reports none is failed, one that was held back is skipped. */
  lemma DlReports(cfg: Config, w: World, s: RunState, r: Recording, a: Artifact)
    ensures var p, p' := s.c.p, Dl(cfg, w, s, r, a).c.p;
      var env := w.call(s.calls, FileName(r, a));
      var run := Call(cfg.o, env.dirOk, s.dest, r.dir, FileName(r, a), env.attempts);
      && p'.completed == p.completed + (if run.outcome == Returned(true) then 1 else 0)
      && p'.skipped == p.skipped + (if run.outcome == Returned(false) && Started !in run.events then 1 else 0)
      && p'.completed + p'.failed + p'.skipped == p.completed + p.failed + p.skipped + 1
      && ((r.dir == "" || env.dirOk) && Final(r.dir, FileName(r, a)) in s.dest.files ==>
            && Dl(cfg, w, s, r, a).dest == s.dest && !Dl(cfg, w, s, r, a).raised
            && p'.skipped == p.skipped + 1 && p'.bytes == p.bytes)
  {
    var env := w.call(s.calls, FileName(r, a));
    CallCounts(s.c, cfg.o, env.dirOk, s.dest, r.dir, FileName(r, a), env.attempts);
  }

  lemma {:induction false} DlArtifactsConserves(cfg: Config, w: World, s: RunState, r: Recording,
      kinds: seq<Artifact>, all: nat)
    requires Conserved(s, all) && s.calls + Unskipped(cfg.skip, kinds) <= all && Agreed(s, cfg.o.dryRun)
    ensures var s' := DlArtifacts(cfg, w, s, r, kinds);
      && Conserved(s', all) && Agreed(s', cfg.o.dryRun)
      && s'.calls <= s.calls + Unskipped(cfg.skip, kinds)
      && (!s'.raised ==> s'.calls == s.calls + Unskipped(cfg.skip, kinds))
    decreases |kinds|
  {
    if |kinds| > 0 && !s.raised {
      if Skips(cfg.skip, kinds[0]) {
        DlArtifactsConserves(cfg, w, s, r, kinds[1..], all);
      } else {
        DlConserves(cfg, w, s, r, kinds[0], all);
        DlArtifactsConserves(cfg, w, Dl(cfg, w, s, r, kinds[0]), r, kinds[1..], all);
      }
    }
  }

  /** n times each, in steps. */
  function Times(n: nat, each: nat): nat { if n == 0 then 0 else each + Times(n - 1, each) }

  lemma {:induction false} TimesIsProduct(n: nat, each: nat)
    ensures Times(n, each) == n * each
  {
    if n > 0 {
      TimesIsProduct(n - 1, each);
      assert n * each == (n - 1) * each + each;
    }
  }

  lemma DlRecordingConserves(cfg: Config, w: World, s: RunState, r: Recording, all: nat)
    requires Conserved(s, all) && s.calls + Unskipped(cfg.skip, cfg.table) <= all && Agreed(s, cfg.o.dryRun)
    ensures var s' := DlRecording(cfg, w, s, r);
      && Conserved(s', all) && Agreed(s', cfg.o.dryRun)
      && s'.calls <= s.calls + Unskipped(cfg.skip, cfg.table)
      && (!s'.raised ==> s'.calls == s.calls + Unskipped(cfg.skip, cfg.table))
  {
    DlArtifactsConserves(cfg, w, s.(begun := s.begun + 1), r, cfg.table, all);
  }

  lemma {:induction false} DlRecordingsConserves(cfg: Config, w: World, s: RunState, rs: seq<Recording>, all: nat)
    requires Conserved(s, all) && Agreed(s, cfg.o.dryRun)
    requires s.calls + Times(|rs|, Unskipped(cfg.skip, cfg.table)) <= all
    ensures var s' := DlRecordings(cfg, w, s, rs);
      && Conserved(s', all) && Agreed(s', cfg.o.dryRun)
      && s'.calls <= s.calls + Times(|rs|, Unskipped(cfg.skip, cfg.table))
      && (!s'.raised ==> s'.calls == s.calls + Times(|rs|, Unskipped(cfg.skip, cfg.table)))
    decreases |rs|
  {
    if |rs| > 0 && !s.raised {
      DlRecordingConserves(cfg, w, s, rs[0], all);
      var s' := DlRecording(cfg, w, s, rs[0]);
      if s'.raised {
        assert DlRecordings(cfg, w, s', rs[1..]) == s';
      } else {
        DlRecordingsConserves(cfg, w, s', rs[1..], all);
      }
    }
  }

  lemma {:induction false} UnskippedMonotone(skip: set<Artifact>, kinds: seq<Artifact>, i: nat)
    requires i <= |kinds|
    ensures Unskipped(skip, kinds[..i]) <= Unskipped(skip, kinds)
    decreases |kinds|
  {
    if i > 0 {
      assert kinds[..i][1..] == kinds[1..][..i - 1];
      UnskippedMonotone(skip, kinds[1..], i - 1);
    }
  }

  lemma {:induction false} TimesGrows(k: nat, n: nat, each: nat)
    requires k <= n
    ensures Times(k, each) <= Times(n, each)
  {
    if k < n { TimesGrows(k, n - 1, each); }
  }

  function Counting(skip: set<Artifact>, kinds: seq<Artifact>): set<Artifact>
  {
    set a | a in kinds && (a == Mp4 || a !in skip)
  }

  lemma {:induction false} UnskippedIsSize(skip: set<Artifact>, kinds: seq<Artifact>)
    requires forall i, j :: 0 <= i < j < |kinds| ==> kinds[i] != kinds[j]
    ensures Unskipped(skip, kinds) == |Counting(skip, kinds)|
    decreases |kinds|
  {
    if |kinds| > 0 {
      var rest := Counting(skip, kinds[1..]);
      UnskippedIsSize(skip, kinds[1..]);
      assert kinds[0] !in rest;
      assert kinds == [kinds[0]] + kinds[1..];
      assert Counting(skip, kinds) == rest + if Skips(skip, kinds[0]) then {} else {kinds[0]};
    }
  }

  lemma EveryKind(a: Artifact)
    ensures a in ARTIFACTS
  {
    assert ARTIFACTS[0] == Mp4 && ARTIFACTS[1] == Thm && ARTIFACTS[2] == Accel && ARTIFACTS[3] == Gps;
    match a case _ =>
  }

  lemma KindsToFetch(skip: set<Artifact>)
    ensures Unskipped(skip, ARTIFACTS) == |set a: Artifact | a == Mp4 || a !in skip|
  {
    UnskippedIsSize(skip, ARTIFACTS);
    forall a: Artifact ensures a in ARTIFACTS { EveryKind(a); }
    assert (set a: Artifact | a == Mp4 || a !in skip) == Counting(skip, ARTIFACTS);
  }

  lemma WantsAsMany(cfg: Config, listing: seq<string>)
    requires ValidConfig(cfg)
    ensures |Wants(cfg, listing)| == |Selected(listing, cfg.selection)|
  {
    assert |multiset(Wants(cfg, listing))| == |multiset(Selected(listing, cfg.selection))|;
  }

  lemma ReadyTotal(cfg: Config, d: Dest, c: Counters, listing: seq<string>, n: nat, each: nat)
    requires n == |Wants(cfg, listing)| && each == Unskipped(cfg.skip, cfg.table) && c.p.skipped == 0
    ensures Ready(cfg, d, c, listing).c.p.filesTotal == n * each
  {
    assert n * each >= 0;
  }

  /** The total published before the first file: recordings times kinds that are not skipped. */
  lemma StartingTotal(cfg: Config, d: Dest, jobId: JobId, listing: seq<string>)
    requires ValidConfig(cfg)
    ensures Ready(cfg, d, FreshCounters(jobId), listing).c.p.filesTotal
         == |Selected(listing, cfg.selection)| * |set a: Artifact | a == Mp4 || a !in cfg.skip|
  {
    KindsToFetch(cfg.skip);
    WantsAsMany(cfg, listing);
    ReadyTotal(cfg, d, FreshCounters(jobId), listing, |Wants(cfg, listing)|, Unskipped(cfg.skip, cfg.table));
  }

  /** The run stopped after k recordings and i artifacts of the next. */
  function Midway(cfg: Config, w: World, d: Dest, c: Counters, listing: seq<string>, k: nat, i: nat): RunState
    requires k < |Wants(cfg, listing)| && i <= |cfg.table|
  {
    var rs := Wants(cfg, listing);
    DlArtifacts(cfg, w, DlRecordings(cfg, w, Ready(cfg, d, c, listing), rs[..k]), rs[k], cfg.table[..i])
  }

  /** The files of the first k recordings and of i artifacts of the next. */
  function Position(cfg: Config, k: nat, i: nat): int
    requires i <= |cfg.table|
  {
    k * Unskipped(cfg.skip, cfg.table) + Unskipped(cfg.skip, cfg.table[..i])
  }

  lemma ConservedAt(cfg: Config, w: World, d: Dest, jobId: JobId, listing: seq<string>, k: nat, i: nat)
    requires k < |Wants(cfg, listing)| && i <= |cfg.table|
    ensures var each := Unskipped(cfg.skip, cfg.table);
      var all, at := Times(|Wants(cfg, listing)|, each), Times(k, each) + Unskipped(cfg.skip, cfg.table[..i]);
      var s := Midway(cfg, w, d, FreshCounters(jobId), listing, k, i);
      Conserved(s, all) && Agreed(s, cfg.o.dryRun) && s.calls <= at <= all && (!s.raised ==> s.calls == at)
  {
    var rs := Wants(cfg, listing);
    var each := Unskipped(cfg.skip, cfg.table);
    var s := Ready(cfg, d, FreshCounters(jobId), listing);
    TimesIsProduct(|rs|, each);
    TimesGrows(k + 1, |rs|, each);
    DlRecordingsConserves(cfg, w, s, rs[..k], Times(|rs|, each));
    UnskippedMonotone(cfg.skip, cfg.table, i);
    DlArtifactsConserves(cfg, w, DlRecordings(cfg, w, s, rs[..k]), rs[k], cfg.table[..i], Times(|rs|, each));
  }

  /** MAIN: at every point of a run, completed, failed and skipped files are together those up to
      this position (fewer only after an exception); files_total is recordings times unskipped
      artifacts without the skipped; publisher and metrics agree. */
  lemma ConservedThroughout(cfg: Config, w: World, d: Dest, jobId: JobId, listing: seq<string>, k: nat, i: nat)
    requires k < |Wants(cfg, listing)| && i <= |cfg.table|
    ensures var all := |Wants(cfg, listing)| * Unskipped(cfg.skip, cfg.table);
      var s := Midway(cfg, w, d, FreshCounters(jobId), listing, k, i);
      && all >= 0 && Conserved(s, all)
      && s.c.p.bytes == s.c.m.bytes && (!cfg.o.dryRun ==> s.c.p.completed == s.c.m.files)
      && s.c.p.completed + s.c.p.failed + s.c.p.skipped <= Position(cfg, k, i) <= all
      && (!s.raised ==> s.c.p.completed + s.c.p.failed + s.c.p.skipped == Position(cfg, k, i))
  {
    TimesIsProduct(|Wants(cfg, listing)|, Unskipped(cfg.skip, cfg.table));
    TimesIsProduct(k, Unskipped(cfg.skip, cfg.table));
    ConservedAt(cfg, w, d, jobId, listing, k, i);
  }

  /** MAIN: a run that returns normally has reached every file, so completed and failed add up
      to files_total; and however it ends, the two byte counts and file counts agree. */
  lemma RunAccounts(cfg: Config, w: World, d: Dest, jobId: JobId, listing: seq<string>)
    ensures var s := SyncRecordings(cfg, w, d, FreshCounters(jobId), listing);
      && s.c.p.bytes == s.c.m.bytes && (!cfg.o.dryRun ==> s.c.p.completed == s.c.m.files)
      && (!s.raised ==> s.c.p.completed + s.c.p.failed == s.c.p.filesTotal)
      && s.c.p.completed + s.c.p.failed <= s.c.p.filesTotal
  {
    var rs := Wants(cfg, listing);
    var each := Unskipped(cfg.skip, cfg.table);
    var all := Times(|rs|, each);
    TimesIsProduct(|rs|, each);
    var s0 := Ready(cfg, d, FreshCounters(jobId), listing);
    assert Conserved(s0, all) && Agreed(s0, cfg.o.dryRun);
    DlRecordingsConserves(cfg, w, s0, rs, all);
  }

  predicate SameJob(s: RunState, s': RunState)
  {
    s'.c.p.jobId == s.c.p.jobId && s'.c.p.state == s.c.p.state
  }

  lemma {:induction false} DlArtifactsSameJob(cfg: Config, w: World, s: RunState, r: Recording, kinds: seq<Artifact>)
    ensures SameJob(s, DlArtifacts(cfg, w, s, r, kinds))
    decreases |kinds|
  {
    if |kinds| > 0 && !s.raised {
      if Skips(cfg.skip, kinds[0]) {
        DlArtifactsSameJob(cfg, w, s, r, kinds[1..]);
      } else {
        var env := w.call(s.calls, FileName(r, kinds[0]));
        CallCounts(s.c, cfg.o, env.dirOk, s.dest, r.dir, FileName(r, kinds[0]), env.attempts);
        DlArtifactsSameJob(cfg, w, Dl(cfg, w, s, r, kinds[0]), r, kinds[1..]);
      }
    }
  }

  /** The job stays the same and stays running until the run is over. */
  lemma {:induction false} DlRecordingsSameJob(cfg: Config, w: World, s: RunState, rs: seq<Recording>)
    ensures SameJob(s, DlRecordings(cfg, w, s, rs))
    decreases |rs|
  {
    if |rs| > 0 && !s.raised {
      DlArtifactsSameJob(cfg, w, s.(begun := s.begun + 1), rs[0], cfg.table);
      DlRecordingsSameJob(cfg, w, DlRecording(cfg, w, s, rs[0]), rs[1..]);
    }
  }

  // ---- convergence -----------------------------------------------------------------------------

  /** A run without per-file failures and without files held back by a failure marker. */
  predicate Clean(s: RunState)
  {
    !s.raised && s.c.p.failed == 0 && RecentlyFailed !in s.log
  }

  /** Finished files stay, bytes and all, whatever a call does. */
  lemma {:induction false} CallKeepsFinals(o: Options, dirOk: bool, d: Dest, dir: string, name: string,
      attempts: seq<Attempt>, p: Path)
    requires ArtifactName(name) && ArtifactName(p.name) && p in d.files
    ensures SameAt(Call(o, dirOk, d, dir, name, attempts).dest.files, d.files, p)
    decreases |attempts|
  {
    assert ("." + name)[0] == '.';
    CallFrame(o, dirOk, d, dir, name, attempts, p);
  }

  lemma TrySuccessIsPresent(o: Options, d: Dest, dir: string, name: string, a: Attempt)
    ensures OutcomeOf(Try(o, d, dir, name, a)) == Returned(true) ==>
      Final(dir, name) in Left(Try(o, d, dir, name, a)).files
  {
  }

  /** A call that reports success outside a dry run leaves the file under its final name. */
  lemma {:induction false} SuccessIsPresent(o: Options, dirOk: bool, d: Dest, dir: string, name: string,
      attempts: seq<Attempt>)
    requires !o.dryRun
    ensures var run := Call(o, dirOk, d, dir, name, attempts);
      run.outcome == Returned(true) ==> Final(dir, name) in run.dest.files
    decreases |attempts|
  {
    if |attempts| > 0 {
      TrySuccessIsPresent(o, d, dir, name, attempts[0]);
      var t := Try(o, d, dir, name, attempts[0]);
      if t.Again? {
        SuccessIsPresent(o, dirOk, t.dest, dir, name, attempts[1..]);
      }
    }
  }

  predicate Present(d: Dest, r: Recording, a: Artifact) { Final(r.dir, FileName(r, a)) in d.files }

  predicate Parsed(cfg: Config, r: Recording) { ToRecording(r.filename, cfg.selection.grouping) == Some(r) }

  /** A call that never started a transfer found the file, or was held back, or raised. */
  lemma UnstartedCall(o: Options, dirOk: bool, d: Dest, dir: string, name: string, attempts: seq<Attempt>)
    requires !o.dryRun
    ensures var run := Call(o, dirOk, d, dir, name, attempts);
      run.outcome.Returned? && Started !in run.events ==>
        Final(dir, name) in run.dest.files || RecentlyFailed in run.events
  {
    if |attempts| > 0 {
      TryEvents(o, d, dir, name, attempts[0]);
      var t := Try(o, d, dir, name, attempts[0]);
      if t.Again? {
        assert Seen(t)[..2][0] == Seen(t)[0];
      } else if Seen(t) != [RecentlyFailed] {
        assert Seen(t)[..2][0] == Seen(t)[0];
      }
    }
  }

  /** What one artifact does for convergence: unless it fails, it is present afterwards, and
      nothing that was present is lost. */
  lemma DlConverges(cfg: Config, w: World, s: RunState, r: Recording, a: Artifact)
    requires !cfg.o.dryRun && Parsed(cfg, r)
    ensures var s' := Dl(cfg, w, s, r, a);
      && s.c.p.failed <= s'.c.p.failed && s.log <= s'.log
      && (Clean(s') ==> Present(s'.dest, r, a))
      && (forall p :: p in s.dest.files && ArtifactName(p.name) ==> p in s'.dest.files)
  {
    var name := FileName(r, a);
    var env := w.call(s.calls, name);
    FileNameShape(r, cfg.selection.grouping, a);
    CallCounts(s.c, cfg.o, env.dirOk, s.dest, r.dir, name, env.attempts);
    UnstartedCall(cfg.o, env.dirOk, s.dest, r.dir, name, env.attempts);
    SuccessIsPresent(cfg.o, env.dirOk, s.dest, r.dir, name, env.attempts);
    forall p | p in s.dest.files && ArtifactName(p.name) ensures p in Dl(cfg, w, s, r, a).dest.files {
      CallKeepsFinals(cfg.o, env.dirOk, s.dest, r.dir, name, env.attempts, p);
    }
  }

  ghost predicate Keeps(s: RunState, s': RunState)
  {
    && s.c.p.failed <= s'.c.p.failed && s.log <= s'.log
    && (forall p :: p in s.dest.files && ArtifactName(p.name) ==> p in s'.dest.files)
  }

  lemma {:induction false} DlArtifactsConverges(cfg: Config, w: World, s: RunState, r: Recording, kinds: seq<Artifact>)
    requires !cfg.o.dryRun && Parsed(cfg, r)
    ensures var s' := DlArtifacts(cfg, w, s, r, kinds);
      && Keeps(s, s')
      && (Clean(s') ==> forall a :: a in kinds && !Skips(cfg.skip, a) ==> Present(s'.dest, r, a))
    decreases |kinds|
  {
    if |kinds| > 0 && !s.raised {
      if Skips(cfg.skip, kinds[0]) {
        DlArtifactsConverges(cfg, w, s, r, kinds[1..]);
      } else {
        DlConverges(cfg, w, s, r, kinds[0]);
        FileNameShape(r, cfg.selection.grouping, kinds[0]);
        var s1 := Dl(cfg, w, s, r, kinds[0]);
        DlArtifactsConverges(cfg, w, s1, r, kinds[1..]);
        if Clean(DlArtifacts(cfg, w, s1, r, kinds[1..])) {
          RaisedStays(cfg, w, s1, r, kinds[1..]);
        }
      }
    }
  }

  lemma RaisedStays(cfg: Config, w: World, s: RunState, r: Recording, kinds: seq<Artifact>)
    ensures s.raised ==> DlArtifacts(cfg, w, s, r, kinds) == s
  {
  }

  /** All artifacts of a recording but those whose kind is to be skipped; its video never is. */
  predicate AllPresent(cfg: Config, d: Dest, r: Recording)
  {
    forall a :: a in cfg.table && (a == Mp4 || a !in cfg.skip) ==> Present(d, r, a)
  }

  lemma DlRecordingConverges(cfg: Config, w: World, s: RunState, r: Recording)
    requires !cfg.o.dryRun && Parsed(cfg, r)
    ensures var s' := DlRecording(cfg, w, s, r);
      Keeps(s, s') && (Clean(s') ==> AllPresent(cfg, s'.dest, r))
  {
    DlArtifactsConverges(cfg, w, s.(begun := s.begun + 1), r, cfg.table);
  }

  lemma PresentStays(cfg: Config, s: RunState, s': RunState, r: Recording)
    requires Keeps(s, s') && Parsed(cfg, r) && AllPresent(cfg, s.dest, r)
    ensures AllPresent(cfg, s'.dest, r)
  {
    forall a | a in cfg.table && (a == Mp4 || a !in cfg.skip) ensures Present(s'.dest, r, a) {
      FileNameShape(r, cfg.selection.grouping, a);
      assert Present(s.dest, r, a);
    }
  }

  lemma {:induction false} DlRecordingsConverges(cfg: Config, w: World, s: RunState, rs: seq<Recording>)
    requires !cfg.o.dryRun && forall r :: r in rs ==> Parsed(cfg, r)
    ensures var s' := DlRecordings(cfg, w, s, rs);
      && Keeps(s, s') && (s.raised ==> s'.raised)
      && (Clean(s') ==> forall r :: r in rs ==> AllPresent(cfg, s'.dest, r))
    decreases |rs|
  {
    if |rs| > 0 && !s.raised {
      var s1 := DlRecording(cfg, w, s, rs[0]);
      DlRecordingConverges(cfg, w, s, rs[0]);
      DlRecordingsConverges(cfg, w, s1, rs[1..]);
      var s' := DlRecordings(cfg, w, s1, rs[1..]);
      if Clean(s') {
        PresentStays(cfg, s1, s', rs[0]);
      }
    }
  }

  // ---- a second run --------------------------------------------------------------------------

  predicate IsOutdated(cfg: Config, p: Path)
  {
    cfg.selection.cutoff.Some? && Outdated(cfg.selection.grouping, cfg.selection.cutoff.value, p)
  }

  /** Nothing left to remove: no outdated file and no orphan partial. */
  ghost predicate Settled(cfg: Config, expected: set<string>, d: Dest)
  {
    && (forall p :: p in d.files ==> !Orphan(expected, p) && !IsOutdated(cfg, p))
    && (forall p :: p in d.marks ==> !IsOutdated(cfg, p))
  }

  predicate InTime(cfg: Config, r: Recording)
  {
    Parsed(cfg, r) && (cfg.selection.cutoff.Some? ==> DateOf(r.base) >= cfg.selection.cutoff.value)
  }

  /** The three paths a call can create are neither outdated nor orphans. */
  lemma OwnPathsSettled(cfg: Config, expected: set<string>, r: Recording, a: Artifact)
    requires InTime(cfg, r) && FileName(r, a) in expected
    ensures var name := FileName(r, a);
      && !IsOutdated(cfg, Partial(name)) && !IsOutdated(cfg, Final(r.dir, name))
      && !IsOutdated(cfg, Marker(r.dir, name))
      && !Orphan(expected, Partial(name)) && !Orphan(expected, Final(r.dir, name))
  {
    var name := FileName(r, a);
    FileNameShape(r, cfg.selection.grouping, a);
    assert ("." + name)[1..] == name && ("." + name)[0] == '.';
    assert (name + ".failed")[..15] == name[..15];
    if |("." + name)| >= 15 {
      assert ("." + name)[..15][..8][0] == '.';
    }
  }

  lemma DlStaysSettled(cfg: Config, w: World, s: RunState, r: Recording, a: Artifact, expected: set<string>)
    requires Settled(cfg, expected, s.dest) && InTime(cfg, r) && FileName(r, a) in expected
    ensures Settled(cfg, expected, Dl(cfg, w, s, r, a).dest)
  {
    var name := FileName(r, a);
    var env := w.call(s.calls, name);
    var d := Dl(cfg, w, s, r, a).dest;
    OwnPathsSettled(cfg, expected, r, a);
    forall p | p in d.files ensures !Orphan(expected, p) && !IsOutdated(cfg, p) {
      CallFrame(cfg.o, env.dirOk, s.dest, r.dir, name, env.attempts, p);
    }
    forall p | p in d.marks ensures !IsOutdated(cfg, p) {
      CallFrame(cfg.o, env.dirOk, s.dest, r.dir, name, env.attempts, p);
    }
  }

  lemma {:induction false} DlArtifactsStaysSettled(cfg: Config, w: World, s: RunState, r: Recording,
      kinds: seq<Artifact>, expected: set<string>)
    requires Settled(cfg, expected, s.dest) && InTime(cfg, r)
    requires forall a :: FileName(r, a) in expected
    ensures Settled(cfg, expected, DlArtifacts(cfg, w, s, r, kinds).dest)
    decreases |kinds|
  {
    if |kinds| > 0 && !s.raised {
      if Skips(cfg.skip, kinds[0]) {
        DlArtifactsStaysSettled(cfg, w, s, r, kinds[1..], expected);
      } else {
        DlStaysSettled(cfg, w, s, r, kinds[0], expected);
        DlArtifactsStaysSettled(cfg, w, Dl(cfg, w, s, r, kinds[0]), r, kinds[1..], expected);
      }
    }
  }

  lemma DlRecordingStaysSettled(cfg: Config, w: World, s: RunState, r: Recording, expected: set<string>)
    requires Settled(cfg, expected, s.dest) && InTime(cfg, r)
    requires forall a :: FileName(r, a) in expected
    ensures Settled(cfg, expected, DlRecording(cfg, w, s, r).dest)
  {
    var s1 := s.(begun := s.begun + 1);
    var s2 := DlArtifacts(cfg, w, s1, r, cfg.table);
    DlArtifactsStaysSettled(cfg, w, s1, r, cfg.table, expected);
    assert DlRecording(cfg, w, s, r).dest == if w.diskFull(s.begun) then s.dest else s2.dest;
  }

  lemma {:induction false} DlRecordingsStaysSettled(cfg: Config, w: World, s: RunState, rs: seq<Recording>,
      expected: set<string>)
    requires Settled(cfg, expected, s.dest)
    requires forall r :: r in rs ==> InTime(cfg, r)
    requires forall r, a :: r in rs ==> FileName(r, a) in expected
    ensures Settled(cfg, expected, DlRecordings(cfg, w, s, rs).dest)
    decreases |rs|
  {
    if |rs| > 0 && !s.raised {
      assert InTime(cfg, rs[0]);
      DlRecordingStaysSettled(cfg, w, s, rs[0], expected);
      DlRecordingsStaysSettled(cfg, w, DlRecording(cfg, w, s, rs[0]), rs[1..], expected);
    }
  }

  predicate NoRequest(log: seq<Event>) { forall e :: e in log ==> !e.Request? }

  /** Where everything is present, a run changes nothing and asks for nothing. */
  lemma {:induction false} DlArtifactsIdle(cfg: Config, w: World, s: RunState, r: Recording, kinds: seq<Artifact>)
    requires forall a :: a in kinds && !Skips(cfg.skip, a) ==> Present(s.dest, r, a)
    requires NoRequest(s.log)
    ensures var s' := DlArtifacts(cfg, w, s, r, kinds); s'.dest == s.dest && NoRequest(s'.log)
    decreases |kinds|
  {
    if |kinds| > 0 && !s.raised {
      if Skips(cfg.skip, kinds[0]) {
        DlArtifactsIdle(cfg, w, s, r, kinds[1..]);
      } else {
        assert Present(s.dest, r, kinds[0]);
        DlArtifactsIdle(cfg, w, Dl(cfg, w, s, r, kinds[0]), r, kinds[1..]);
      }
    }
  }

  lemma DlRecordingIdle(cfg: Config, w: World, s: RunState, r: Recording)
    requires AllPresent(cfg, s.dest, r) && NoRequest(s.log)
    ensures var s' := DlRecording(cfg, w, s, r); s'.dest == s.dest && NoRequest(s'.log)
  {
    DlArtifactsIdle(cfg, w, s.(begun := s.begun + 1), r, cfg.table);
  }

  lemma {:induction false} DlRecordingsIdle(cfg: Config, w: World, s: RunState, rs: seq<Recording>)
    requires forall r :: r in rs ==> AllPresent(cfg, s.dest, r)
    requires NoRequest(s.log)
    ensures var s' := DlRecordings(cfg, w, s, rs); s'.dest == s.dest && NoRequest(s'.log)
    decreases |rs|
  {
    if |rs| > 0 && !s.raised {
      DlRecordingIdle(cfg, w, s, rs[0]);
      DlRecordingsIdle(cfg, w, DlRecording(cfg, w, s, rs[0]), rs[1..]);
    }
  }

  lemma WantsAreInTime(cfg: Config, listing: seq<string>)
    requires ValidConfig(cfg)
    ensures forall r :: r in Wants(cfg, listing) <==> r in Selected(listing, cfg.selection)
    ensures forall r :: r in Wants(cfg, listing) ==> InTime(cfg, r)
  {
    var selected := Selected(listing, cfg.selection);
    var rs := Wants(cfg, listing);
    assert multiset(rs) == multiset(selected);
    forall r ensures r in rs <==> r in selected {
      assert r in multiset(rs) <==> r in multiset(selected);
    }
    forall r | r in rs ensures InTime(cfg, r) {
      SelectedIffWanted(listing, cfg.selection, r);
    }
  }

  lemma ReadyIsSettled(cfg: Config, d: Dest, c: Counters, listing: seq<string>)
    requires !cfg.o.dryRun
    ensures Settled(cfg, Expected(Wants(cfg, listing)), Ready(cfg, d, c, listing).dest)
  {
  }

  /** The clean-up after a converged run keeps every wanted file: each of their group
      directories holds the recording's own video. */
  lemma CleanKeepsWanted(cfg: Config, d: Dest, r: Recording)
    requires ValidConfig(cfg) && Parsed(cfg, r) && AllPresent(cfg, d, r)
    ensures AllPresent(cfg, Cleaned(d, cfg.selection.grouping, cfg.o.dryRun), r)
  {
    var p := Final(r.dir, FileName(r, Mp4));
    assert Present(d, r, Mp4) && p in d.files.Keys + d.marks.Keys;
    assert IsMp4(p.name) by {
      assert r.filename[|r.filename| - 4..] == ".mp4" by {
        assert r.filename[18..] == ".mp4" || r.filename[19..] == ".mp4";
      }
    }
    assert HasVideo(d, r.dir);
  }

  /** MAIN: after a run without failures every wanted file is present, also after the group
      clean-up; and a second run with the same listing and options, in any circumstances,
      sends no request and leaves the destination as it is. */
  lemma SecondRunIsIdle(cfg: Config, w: World, w': World, d: Dest, c: Counters, c': Counters, listing: seq<string>)
    requires ValidConfig(cfg) && !cfg.o.dryRun
    requires var s := SyncRecordings(cfg, w, d, c, listing);
      !s.raised && s.c.p.failed == 0 && RecentlyFailed !in s.log
    ensures var first := SyncRecordings(cfg, w, d, c, listing).dest;
      var kept := Cleaned(first, cfg.selection.grouping, cfg.o.dryRun);
      var second := SyncRecordings(cfg, w', kept, c', listing);
      && (forall r, a :: r in Selected(listing, cfg.selection) && (a == Mp4 || a !in cfg.skip) ==>
            Present(first, r, a) && Present(kept, r, a))
      && second.dest == kept && NoRequest(second.log)
  {
    var rs := Wants(cfg, listing);
    var s0 := Ready(cfg, d, c, listing);
    var first := SyncRecordings(cfg, w, d, c, listing).dest;
    var kept := Cleaned(first, cfg.selection.grouping, cfg.o.dryRun);
    WantsAreInTime(cfg, listing);
    DlRecordingsConverges(cfg, w, s0, rs);
    forall r | r in rs ensures AllPresent(cfg, kept, r) {
      CleanKeepsWanted(cfg, first, r);
    }
    forall r, a | r in Selected(listing, cfg.selection) && (a == Mp4 || a !in cfg.skip)
      ensures Present(first, r, a) && Present(kept, r, a)
    {
      assert r in rs && a in cfg.table;
    }
    ReadyIsSettled(cfg, d, c, listing);
    DlRecordingsStaysSettled(cfg, w, s0, rs, Expected(rs));
    assert Settled(cfg, Expected(rs), kept);
    SettledIsReady(cfg, kept, c', listing);
    DlRecordingsIdle(cfg, w', Ready(cfg, kept, c', listing), rs);
  }

  lemma SettledIsReady(cfg: Config, d: Dest, c: Counters, listing: seq<string>)
    requires Settled(cfg, Expected(Wants(cfg, listing)), d)
    ensures Ready(cfg, d, c, listing).dest == d
  {
    var prepared := Prepared(d, cfg.selection.grouping, cfg.selection.cutoff, cfg.o.dryRun);
    assert prepared.files == d.files && prepared.marks == d.marks;
    assert Pruned(prepared, Expected(Wants(cfg, listing)), cfg.o.dryRun).files == d.files;
  }

  // ---- retention and pruning of a run ----------------------------------------------------------

  /** The name of an artifact of a listed recording that passes cutoff and filters. */
  ghost predicate WantedName(listing: seq<string>, selection: Selection, name: string)
  {
    exists r: Recording, a: Artifact :: r.filename in listing && Wanted(r, selection) && FileName(r, a) == name
  }

  lemma ExpectedIffWanted(cfg: Config, listing: seq<string>, name: string)
    requires ValidConfig(cfg)
    ensures name in Expected(Wants(cfg, listing)) <==> WantedName(listing, cfg.selection, name)
  {
    var rs := Wants(cfg, listing);
    if name in Expected(rs) {
      var r, a :| r in rs && FileName(r, a) == name;
      WantsIffWanted(cfg, listing, r);
    }
    if WantedName(listing, cfg.selection, name) {
      var r: Recording, a: Artifact :| r.filename in listing && Wanted(r, cfg.selection) && FileName(r, a) == name;
      WantsIffWanted(cfg, listing, r);
    }
  }

  lemma WantsIffWanted(cfg: Config, listing: seq<string>, r: Recording)
    requires ValidConfig(cfg)
    ensures r in Wants(cfg, listing) <==> r.filename in listing && Wanted(r, cfg.selection)
  {
    WantsAreInTime(cfg, listing);
    SelectedIffWanted(listing, cfg.selection, r);
  }

  /** MAIN: after the preparation of a run, the finished files and markers left are exactly the
      earlier ones that are not outdated, and the partials left are exactly the earlier ones
      that some wanted recording of the listing can resume. Partials in group directories, where
      none is ever written, stay. */
  lemma PreparationIsExact(cfg: Config, d: Dest, c: Counters, listing: seq<string>, p: Path)
    requires ValidConfig(cfg) && !cfg.o.dryRun
    ensures var after := Ready(cfg, d, c, listing).dest;
      var g, cutoff := cfg.selection.grouping, cfg.selection.cutoff;
      && (p in after.files ==> p in d.files && after.files[p] == d.files[p])
      && (p in after.marks <==> p in d.marks && !(cutoff.Some? && IsPast(g, cutoff.value, p)))
      && (!IsPartialName(p.name) ==>
            (p in after.files <==> p in d.files && !(cutoff.Some? && IsPast(g, cutoff.value, p))))
      && (IsPartialName(p.name) && p.dir == "" ==>
            (p in after.files <==> p in d.files && WantedName(listing, cfg.selection, p.name[1..])))
      && (IsPartialName(p.name) && p.dir != "" ==> (p in after.files <==> p in d.files))
  {
    TempIffPartialName(p.name);
    if cfg.selection.cutoff.Some? { OutdatedIffPast(cfg.selection.grouping, cfg.selection.cutoff.value, p); }
    if TempGlob(p.name) {
      assert !IsOutdated(cfg, p) by { assert p.name[..15][..8][0] == '.'; }
      ExpectedIffWanted(cfg, listing, p.name[1..]);
    }
  }

  lemma {:induction false} CallRequestsItsName(o: Options, dirOk: bool, d: Dest, dir: string, name: string,
      attempts: seq<Attempt>)
    ensures forall e :: e in Call(o, dirOk, d, dir, name, attempts).events && e.Request? ==> e.name == name
    decreases |attempts|
  {
    if |attempts| > 0 {
      var t := Try(o, d, dir, name, attempts[0]);
      TryEvents(o, d, dir, name, attempts[0]);
      if |Seen(t)| >= 2 {
        assert Seen(t) == Seen(t)[..2] + Seen(t)[2..];
      }
      if t.Again? {
        CallRequestsItsName(o, dirOk, t.dest, dir, name, attempts[1..]);
      }
    }
  }

  /** A file of one of the recordings, of a kind that is not skipped. */
  ghost predicate IsFileOf(rs: seq<Recording>, skip: set<Artifact>, name: string)
  {
    exists r, a :: r in rs && (a == Mp4 || a !in skip) && name == FileName(r, a)
  }

  /** Nothing else is ever asked for. */
  ghost predicate AsksFor(log: seq<Event>, rs: seq<Recording>, skip: set<Artifact>)
  {
    forall e :: e in log && e.Request? ==> IsFileOf(rs, skip, e.name)
  }

  lemma {:induction false} DlArtifactsAsks(cfg: Config, w: World, s: RunState, r: Recording, kinds: seq<Artifact>,
      rs: seq<Recording>)
    requires r in rs && AsksFor(s.log, rs, cfg.skip)
    ensures AsksFor(DlArtifacts(cfg, w, s, r, kinds).log, rs, cfg.skip)
    decreases |kinds|
  {
    if |kinds| > 0 && !s.raised {
      if Skips(cfg.skip, kinds[0]) {
        DlArtifactsAsks(cfg, w, s, r, kinds[1..], rs);
      } else {
        var env := w.call(s.calls, FileName(r, kinds[0]));
        CallRequestsItsName(cfg.o, env.dirOk, s.dest, r.dir, FileName(r, kinds[0]), env.attempts);
        assert IsFileOf(rs, cfg.skip, FileName(r, kinds[0]));
        DlArtifactsAsks(cfg, w, Dl(cfg, w, s, r, kinds[0]), r, kinds[1..], rs);
      }
    }
  }

  lemma {:induction false} DlRecordingsAsks(cfg: Config, w: World, s: RunState, todo: seq<Recording>,
      rs: seq<Recording>)
    requires AsksFor(s.log, rs, cfg.skip) && forall r :: r in todo ==> r in rs
    ensures AsksFor(DlRecordings(cfg, w, s, todo).log, rs, cfg.skip)
    decreases |todo|
  {
    if |todo| > 0 && !s.raised {
      DlArtifactsAsks(cfg, w, s.(begun := s.begun + 1), todo[0], cfg.table, rs);
      DlRecordingsAsks(cfg, w, DlRecording(cfg, w, s, todo[0]), todo[1..], rs);
    }
  }

  /** MAIN: every request of a run is for a file, of a kind that is not skipped, of a listed
      recording that passes cutoff and filters; so nothing dated before the cutoff is fetched. */
  lemma FetchesOnlyWanted(cfg: Config, w: World, d: Dest, c: Counters, listing: seq<string>, e: Event)
    requires ValidConfig(cfg)
    requires e in SyncRecordings(cfg, w, d, c, listing).log && e.Request?
    ensures WantedName(listing, cfg.selection, e.name)
    ensures exists r: Recording, a: Artifact ::
      r.filename in listing && Wanted(r, cfg.selection) && (a == Mp4 || a !in cfg.skip) && e.name == FileName(r, a)
  {
    var rs := Wants(cfg, listing);
    DlRecordingsAsks(cfg, w, Ready(cfg, d, c, listing), rs, rs);
    assert IsFileOf(rs, cfg.skip, e.name);
    var r, a :| r in rs && (a == Mp4 || a !in cfg.skip) && e.name == FileName(r, a);
    WantsIffWanted(cfg, listing, r);
  }

  // ---- safety over whole runs --------------------------------------------------------------------

  ghost predicate HonestWorld(source: map<string, Bytes>, w: World)
  {
    forall i, name :: HonestAttempts(source, name, w.call(i, name).attempts)
  }

  lemma {:induction false} DlArtifactsSafe(source: map<string, Bytes>, cfg: Config, w: World, s: RunState,
      r: Recording, kinds: seq<Artifact>)
    requires HonestWorld(source, w) && Parsed(cfg, r) && Safe(source, s.dest.files)
    ensures Safe(source, DlArtifacts(cfg, w, s, r, kinds).dest.files)
    decreases |kinds|
  {
    if |kinds| > 0 && !s.raised {
      if Skips(cfg.skip, kinds[0]) {
        DlArtifactsSafe(source, cfg, w, s, r, kinds[1..]);
      } else {
        var name := FileName(r, kinds[0]);
        var env := w.call(s.calls, name);
        FileNameShape(r, cfg.selection.grouping, kinds[0]);
        CallKeepsSafe(source, cfg.o, env.dirOk, s.dest, r.dir, name, env.attempts);
        DlArtifactsSafe(source, cfg, w, Dl(cfg, w, s, r, kinds[0]), r, kinds[1..]);
      }
    }
  }

  lemma {:induction false} DlRecordingsSafe(source: map<string, Bytes>, cfg: Config, w: World, s: RunState,
      rs: seq<Recording>)
    requires HonestWorld(source, w) && Safe(source, s.dest.files)
    requires forall r :: r in rs ==> Parsed(cfg, r)
    ensures Safe(source, DlRecordings(cfg, w, s, rs).dest.files)
    decreases |rs|
  {
    if |rs| > 0 && !s.raised {
      assert Parsed(cfg, rs[0]);
      DlArtifactsSafe(source, cfg, w, s.(begun := s.begun + 1), rs[0], cfg.table);
      DlRecordingsSafe(source, cfg, w, DlRecording(cfg, w, s, rs[0]), rs[1..]);
    }
  }

  lemma SubsetSafe(source: map<string, Bytes>, files: map<Path, Bytes>, fewer: map<Path, Bytes>)
    requires Safe(source, files) && forall p :: p in fewer ==> p in files && fewer[p] == files[p]
    ensures Safe(source, fewer)
  {
    forall name | ArtifactName(name) ensures PartialSafe(source, fewer, name) {
      assert PartialSafe(source, files, name);
    }
  }

  /** MAIN: against an honest dashcam a whole run, with its removals and however it ends, keeps
      the destination safe; after a run without failures every wanted file that the dashcam
      holds is there, byte for byte. */
  lemma RunIsSafe(source: map<string, Bytes>, cfg: Config, w: World, d: Dest, c: Counters, listing: seq<string>)
    requires ValidConfig(cfg) && HonestWorld(source, w) && Safe(source, d.files)
    ensures var s := SyncRecordings(cfg, w, d, c, listing);
      && Safe(source, s.dest.files)
      && Safe(source, Cleaned(s.dest, cfg.selection.grouping, cfg.o.dryRun).files)
      && (!s.raised && s.c.p.failed == 0 && RecentlyFailed !in s.log && !cfg.o.dryRun ==>
            forall r, a ::
              r in Selected(listing, cfg.selection) && (a == Mp4 || a !in cfg.skip) && FileName(r, a) in source ==>
              Present(s.dest, r, a) && s.dest.files[Final(r.dir, FileName(r, a))] == source[FileName(r, a)])
  {
    var rs := Wants(cfg, listing);
    var s := SyncRecordings(cfg, w, d, c, listing);
    WantsAreInTime(cfg, listing);
    SubsetSafe(source, d.files, Ready(cfg, d, c, listing).dest.files);
    DlRecordingsSafe(source, cfg, w, Ready(cfg, d, c, listing), rs);
    SubsetSafe(source, s.dest.files, Cleaned(s.dest, cfg.selection.grouping, cfg.o.dryRun).files);
    if Clean(s) && !cfg.o.dryRun {
      DlRecordingsConverges(cfg, w, Ready(cfg, d, c, listing), rs);
      forall r, a |
        r in Selected(listing, cfg.selection) && (a == Mp4 || a !in cfg.skip) && FileName(r, a) in source
        ensures Present(s.dest, r, a) && s.dest.files[Final(r.dir, FileName(r, a))] == source[FileName(r, a)]
      {
        assert r in rs && a in cfg.table && AllPresent(cfg, s.dest, r);
        FileNameShape(r, cfg.selection.grouping, a);
      }
    }
  }

  // ---- a full disk -------------------------------------------------------------------------------------

  lemma {:induction false} DlRecordingsSplit(cfg: Config, w: World, s: RunState, a: seq<Recording>, b: seq<Recording>)
    ensures DlRecordings(cfg, w, s, a + b) == DlRecordings(cfg, w, DlRecordings(cfg, w, s, a), b)
    decreases |a|
  {
    if |a| == 0 {
      assert a + b == b;
    } else if !s.raised {
      assert (a + b)[1..] == a[1..] + b;
      DlRecordingsSplit(cfg, w, DlRecording(cfg, w, s, a[0]), a[1..], b);
    }
  }

  lemma {:induction false} DlArtifactsBegun(cfg: Config, w: World, s: RunState, r: Recording, kinds: seq<Artifact>)
    ensures DlArtifacts(cfg, w, s, r, kinds).begun == s.begun
    decreases |kinds|
  {
    if |kinds| > 0 && !s.raised {
      DlArtifactsBegun(cfg, w, if Skips(cfg.skip, kinds[0]) then s else Dl(cfg, w, s, r, kinds[0]), r, kinds[1..]);
    }
  }

  lemma {:induction false} DlRecordingsBegun(cfg: Config, w: World, s: RunState, rs: seq<Recording>)
    ensures !DlRecordings(cfg, w, s, rs).raised ==> DlRecordings(cfg, w, s, rs).begun == s.begun + |rs|
    decreases |rs|
  {
    if |rs| > 0 && !s.raised {
      DlArtifactsBegun(cfg, w, s.(begun := s.begun + 1), rs[0], cfg.table);
      DlRecordingsBegun(cfg, w, DlRecording(cfg, w, s, rs[0]), rs[1..]);
    }
  }

  /** The disk is looked at before each recording: when it is full before the k-th, the run ends
      there with a failure counted, and with nothing more asked for, stored or published. */
  lemma FullDiskEndsTheRun(cfg: Config, w: World, d: Dest, c: Counters, listing: seq<string>, k: nat)
    requires k < |Wants(cfg, listing)| && w.diskFull(k)
    requires !DlRecordings(cfg, w, Ready(cfg, d, c, listing), Wants(cfg, listing)[..k]).raised
    ensures var before := DlRecordings(cfg, w, Ready(cfg, d, c, listing), Wants(cfg, listing)[..k]);
      var s := SyncRecordings(cfg, w, d, c, listing);
      && s.raised && s.dest == before.dest && s.log == before.log && s.c.p == before.c.p
      && s.c.m == before.c.m.(failures := before.c.m.failures + 1)
  {
    var rs, s0 := Wants(cfg, listing), Ready(cfg, d, c, listing);
    assert rs == rs[..k] + rs[k..];
    DlRecordingsSplit(cfg, w, s0, rs[..k], rs[k..]);
    DlRecordingsBegun(cfg, w, s0, rs[..k]);
    assert DlRecordings(cfg, w, s0, rs[..k]).begun == k && rs[k..][0] == rs[k];
  }

  // ---- a retry delay that does not outlive the clean-up --------------------------------------------

  /** A failed download is not tried again before its delay is over iff its failure marker
      survives the clean-up: in a group directory without a video the next run asks again at
      once. (`d` is the destination after the failure at time `failed`.) */
  lemma RetryDelayHeldIff(o: Options, d: Dest, g: Grouping, dir: string, name: string, failed: int, a: Attempt,
      more: seq<Attempt>)
    requires !o.dryRun && Final(dir, name) !in d.files
    requires Marker(dir, name) in d.marks && d.marks[Marker(dir, name)] == Stamp(failed)
    requires failed <= a.now < failed + o.retryAfter
    ensures NoRequest(Call(o, true, Cleaned(d, g, false), dir, name, [a] + more).events)
      <==> dir == "" || !g.reaches(dir) || HoldsVideo(d, dir)
  {
    HasVideoIff(d, dir);
    var d' := Cleaned(d, g, false);
    TryEvents(o, d', dir, name, a);
    var t := Try(o, d', dir, name, a);
    if Swept(d, g, dir) {
      assert Marker(dir, name) !in d'.marks;
      assert Seen(t)[..2][1].Request? && Seen(t)[1] in Seen(t);
      assert Call(o, true, d', dir, name, [a] + more).events[1] == Seen(t)[1];
    } else {
      assert Marker(dir, name) in d'.marks && d'.marks[Marker(dir, name)] == Stamp(failed);
    }
  }

  /** MAIN: the delay after an HTTP failure, from the failing call on: the next call within it asks
      for nothing iff the clean-up in between keeps the directory with the failure's marker. */
  lemma FailureIsHeldIff(o: Options, d: Dest, g: Grouping, dir: string, name: string, a: Attempt, b: Attempt,
      more: seq<Attempt>)
    requires !o.dryRun && Final(dir, name) !in d.files && !Blocked(d.marks, dir, name, a.now, o.retryAfter)
    requires FailsByHttp(a.reply(ResumeOffset(d.files, name)), ResumeOffset(d.files, name)) && a.markOk
    requires a.now <= b.now < a.now + o.retryAfter
    ensures var after := Call(o, true, d, dir, name, [a]).dest;
      NoRequest(Call(o, true, Cleaned(after, g, false), dir, name, [b] + more).events)
      <==> dir == "" || !g.reaches(dir) || HoldsVideo(after, dir)
  {
    HttpFailureIsMarked(o, true, d, dir, name, a);
    RetryDelayHeldIff(o, Call(o, true, d, dir, name, [a]).dest, g, dir, name, a.now, b, more);
  }
}
