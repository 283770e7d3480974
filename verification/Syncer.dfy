/** The sync run in its own form: methods over the destination, the publisher and the
    metrics, proved against the functions of modules Recordings and SyncRun. */
module Syncer {
  import opened Common
  import opened Download
  import opened Downloader
  import opened Recordings
  import opened Progress
  import opened SyncRun

  function Without<V>(before: map<Path, V>, gone: set<Path>): map<Path, V>
  {
    map p | p in before && p !in gone :: before[p]
  }

  lemma WithoutOneMore<V>(before: map<Path, V>, gone: set<Path>, p: Path)
    ensures Without(before, gone) - {p} == Without(before, gone + {p})
  {
  }

  /** Every outdated file is found through its own base, and nothing else is removed for it. */
  lemma OutdatedByBase(d: Dest, g: Grouping, cutoff: nat, p: Path)
    requires ValidGrouping(g) && (p in d.files || p in d.marks)
    ensures Outdated(g, cutoff, p) ==> p.name[..15] in OutdatedBases(d, g, cutoff)
    ensures forall base :: base in OutdatedBases(d, g, cutoff) && RemovedFor(g, base, p) ==> Outdated(g, cutoff, p)
    ensures forall base :: Outdated(g, cutoff, p) && p.name[..15] == base ==> RemovedFor(g, base, p)
  {
    OutdatedIffRemoved(d, g, cutoff, p);
  }

  lemma PreparedIs(d: Dest, g: Grouping, cutoff: nat, dryRun: bool, gone: set<Path>)
    requires dryRun ==> gone == {}
    requires !dryRun ==> forall p :: p in d.files || p in d.marks ==> (p in gone <==> Outdated(g, cutoff, p))
    ensures Dest(Without(d.files, gone), Without(d.marks, gone)) == Prepared(d, g, Some(cutoff), dryRun)
  {
  }

  class Syncer {
    const cfg: Config
    const world: World
    const dest: Destination
    const publisher: ProgressPublisher
    var files: nat
    var bytes: nat
    var failures: nat
    var calls: nat
    var begun: nat
    var log: seq<Event>

    ghost predicate Valid()
      reads this, dest, publisher
    {
      dest.options == cfg.o && publisher.Valid()
    }

    ghost function State(raised: bool): RunState
      reads this, dest, publisher
    {
      RunState(dest.State(), Counters(publisher.state, Metrics(files, bytes, failures)), calls, begun, raised, log)
    }

    constructor (cfg: Config, world: World, dest: Destination, publisher: ProgressPublisher)
      requires dest.options == cfg.o && publisher.Valid()
      ensures Valid() && this.cfg == cfg && this.world == world && this.dest == dest && this.publisher == publisher
      ensures State(false) == RunState(dest.State(), Counters(publisher.state, Metrics(0, 0, 0)), 0, 0, false, [])
    {
      this.cfg, this.world, this.dest, this.publisher := cfg, world, dest, publisher;
      files, bytes, failures, calls, begun, log := 0, 0, 0, 0, 0, [];
    }

    ghost predicate IsWithout(before: Dest, gone: set<Path>)
      reads dest
    {
      dest.files == Without(before.files, gone) && dest.marks == Without(before.marks, gone)
    }

    method Remove(gone: set<Path>, ghost before: Dest, ghost earlier: set<Path>)
      requires IsWithout(before, earlier)
      modifies dest
      ensures IsWithout(before, earlier + gone)
    {
      var left := gone;
      assert earlier + (gone - left) == earlier;
      while left != {}
        invariant left <= gone
        invariant IsWithout(before, earlier + (gone - left))
        decreases left
      {
        var p :| p in left;
        assert earlier + (gone - (left - {p})) == earlier + (gone - left) + {p};
        WithoutOneMore(before.files, earlier + (gone - left), p);
        WithoutOneMore(before.marks, earlier + (gone - left), p);
        left := left - {p};
        dest.files := dest.files - {p};
        dest.marks := dest.marks - {p};
      }
      assert earlier + (gone - left) == earlier + gone;
    }

    /** prepare_destination: finds the outdated recordings, then removes the files of each. */
    method PrepareDestination()
      requires Valid() && ValidGrouping(cfg.selection.grouping)
      modifies dest
      ensures dest.State() == Prepared(old(dest.State()), cfg.selection.grouping, cfg.selection.cutoff, cfg.o.dryRun)
    {
      if cfg.selection.cutoff.None? { return; }
      var g, cutoff := cfg.selection.grouping, cfg.selection.cutoff.value;
      ghost var before := dest.State();
      ghost var gone: set<Path> := {};
      var bases := OutdatedBases(Dest(dest.files, dest.marks), g, cutoff);
      ghost var all := bases;
      forall p | p in before.files || p in before.marks
        ensures Outdated(g, cutoff, p) ==> p.name[..15] in all {
        OutdatedByBase(before, g, cutoff, p);
      }
      while bases != {}
        invariant bases <= all
        invariant IsWithout(before, gone)
        invariant cfg.o.dryRun ==> gone == {}
        invariant forall p :: p in gone ==> Outdated(g, cutoff, p)
        invariant !cfg.o.dryRun ==> forall p :: (p in before.files || p in before.marks) && Outdated(g, cutoff, p) ==>
          p.name[..15] in bases || p in gone
        decreases bases
      {
        var base :| base in bases;
        bases := bases - {base};
        if !cfg.o.dryRun {
          var found := set p | p in dest.files.Keys + dest.marks.Keys && RemovedFor(g, base, p);
          forall p | p in dest.files || p in dest.marks
            ensures p in found ==> Outdated(g, cutoff, p)
            ensures Outdated(g, cutoff, p) && p.name[..15] == base ==> p in found {
            OutdatedByBase(before, g, cutoff, p);
          }
          Remove(found, before, gone);
          gone := gone + found;
        }
      }
      PreparedIs(before, g, cutoff, cfg.o.dryRun, gone);
    }

    /** prune_orphan_partials. */
    method PruneOrphanPartials(expected: set<string>)
      modifies dest
      ensures dest.State() == Pruned(old(dest.State()), expected, cfg.o.dryRun)
    {
      var partials := set p | p in dest.files && p.dir == "" && TempGlob(p.name);
      ghost var all := partials;
      while partials != {}
        invariant partials <= all
        invariant forall p :: p in dest.files <==>
          p in old(dest.files) && !(p in all - partials && Orphan(expected, p) && !cfg.o.dryRun)
        invariant forall p :: p in dest.files ==> dest.files[p] == old(dest.files)[p]
        invariant dest.marks == old(dest.marks)
        decreases partials
      {
        var p :| p in partials;
        partials := partials - {p};
        if p.name[1..] !in expected && !cfg.o.dryRun {
          dest.files := dest.files - {p};
        }
      }
    }

    /** clean_destination: removes the group directories that hold no video. */
    method CleanDestination()
      requires Valid()
      modifies dest
      ensures dest.State() == Cleaned(old(dest.State()), cfg.selection.grouping, cfg.o.dryRun)
    {
      var g := cfg.selection.grouping;
      ghost var before := dest.State();
      ghost var gone: set<Path> := {};
      var dirs := set p | p in dest.files.Keys + dest.marks.Keys && p.dir != "" && g.reaches(p.dir) :: p.dir;
      while dirs != {}
        invariant forall dir :: dir in dirs ==> dir != "" && g.reaches(dir)
        invariant IsWithout(before, gone)
        invariant cfg.o.dryRun ==> gone == {}
        invariant forall p :: p in gone ==> p.dir !in dirs && Swept(before, g, p.dir)
        invariant !cfg.o.dryRun ==> forall p :: (p in before.files || p in before.marks) && Swept(before, g, p.dir) ==>
          p.dir in dirs || p in gone
        decreases dirs
      {
        var dir :| dir in dirs;
        SameVideos(before, gone, dir);
        dirs := dirs - {dir};
        if !HasVideo(Dest(dest.files, dest.marks), dir) && !cfg.o.dryRun {
          var found := set p | p in dest.files.Keys + dest.marks.Keys && p.dir == dir;
          Remove(found, before, gone);
          gone := gone + found;
        }
      }
    }

    lemma SameVideos(before: Dest, gone: set<Path>, dir: string)
      requires IsWithout(before, gone) && forall p :: p in gone ==> p.dir != dir
      ensures HasVideo(dest.State(), dir) <==> HasVideo(before, dir)
    {
      if HasVideo(before, dir) {
        var p :| p in before.files.Keys + before.marks.Keys && p.dir == dir && IsMp4(p.name);
        assert p in dest.files.Keys + dest.marks.Keys;
      }
      if HasVideo(dest.State(), dir) {
        var p :| p in dest.files.Keys + dest.marks.Keys && p.dir == dir && IsMp4(p.name);
        assert p in before.files.Keys + before.marks.Keys;
      }
    }

    /** The callbacks and metrics calls of one download, in their order. */
    method ObserveEvents(name: string, events: seq<Event>)
      requires Valid()
      modifies this`files, this`bytes, this`failures, publisher
      ensures Valid()
      ensures Counters(publisher.state, Metrics(files, bytes, failures))
           == ObserveAll(old(Counters(publisher.state, Metrics(files, bytes, failures))), name, events)
    {
      ghost var c0 := Counters(publisher.state, Metrics(files, bytes, failures));
      for i := 0 to |events|
        invariant Valid()
        invariant Counters(publisher.state, Metrics(files, bytes, failures)) == ObserveAll(c0, name, events[..i])
      {
        match events[i] {
          case Started => publisher.StartFile(name, 0);
          case Chunk(downloaded, total) => publisher.UpdateBytes(downloaded, total, true);
          case CountFile(transferred) => files, bytes := files + 1, bytes + transferred;
          case CountFailure(_) => failures := failures + 1;
          case _ =>
        }
        assert events[..i + 1][..i] == events[..i];
      }
      assert events[..|events|] == events;
    }

    /** The wrapper around download_file that reports each artifact to the publisher. */
    method Dl(r: Recording, a: Artifact) returns (raised: bool)
      requires Valid()
      modifies this, dest, publisher
      ensures Valid() && State(raised) == SyncRun.Dl(cfg, world, old(State(false)), r, a)
    {
      var name := FileName(r, a);
      var env := world.call(calls, name);
      var outcome, events := dest.DownloadFile(env.dirOk, r.dir, name, env.attempts);
      ObserveEvents(name, events);
      var started := Started in events;
      raised := !outcome.Returned?;
      if raised {
        if !started { publisher.StartFile(name, 0); }
        publisher.FinishFile(false);
      } else if started {
        publisher.FinishFile(outcome.ok);
      } else if outcome.ok {
        publisher.StartFile(name, 0);
        publisher.FinishFile(true);
      } else {
        publisher.SkipFile(true);
      }
      calls := calls + 1;
      log := log + events;
    }

    /** download_recording. */
    method DownloadRecording(r: Recording) returns (raised: bool)
      requires Valid()
      modifies this, dest, publisher
      ensures Valid() && State(raised) == DlRecording(cfg, world, old(State(false)), r)
    {
      begun := begun + 1;
      if world.diskFull(begun - 1) {
        failures := failures + 1;
        return true;
      }
      raised := false;
      ghost var s0 := State(false);
      var i := 0;
      while i < |cfg.table| && !raised
        invariant i <= |cfg.table| && Valid()
        invariant DlArtifacts(cfg, world, State(raised), r, cfg.table[i..]) == DlArtifacts(cfg, world, s0, r, cfg.table)
      {
        if !Skips(cfg.skip, cfg.table[i]) {
          raised := Dl(r, cfg.table[i]);
        }
        i := i + 1;
      }
    }

    /** _sync_recordings on the dashcam's listing. */
    method SyncRecordings(listing: seq<string>) returns (raised: bool)
      requires Valid() && ValidConfig(cfg)
      requires calls == 0 && begun == 0 && log == []
      modifies this, dest, publisher
      ensures Valid()
      ensures State(raised) == SyncRun.SyncRecordings(cfg, world, old(dest.State()),
        old(Counters(publisher.state, Metrics(files, bytes, failures))), listing)
    {
      PrepareDestination();
      var rs := cfg.order(Selected(listing, cfg.selection));
      PruneOrphanPartials(Expected(rs));
      publisher.SetTotal(|rs| * Unskipped(cfg.skip, cfg.table));
      raised := false;
      ghost var s0 := State(false);
      var i := 0;
      while i < |rs| && !raised
        invariant i <= |rs| && Valid()
        invariant DlRecordings(cfg, world, State(raised), rs[i..]) == DlRecordings(cfg, world, s0, rs)
      {
        raised := DownloadRecording(rs[i]);
        i := i + 1;
      }
    }

    /** sync: the job is begun before anything else and ended whatever happens. A listing of
        None stands for a dashcam that cannot be listed. */
    method Sync(listing: Option<seq<string>>, jobId: JobId) returns (raised: bool)
      requires Valid() && ValidConfig(cfg)
      requires calls == 0 && begun == 0 && log == [] && files == bytes == failures == 0
      modifies this, dest, publisher
      ensures Valid() && publisher.state.jobId == jobId
      ensures publisher.state.state == if raised then Failed else Complete
      ensures listing.None? ==> raised
      ensures listing.Some? ==>
        var s := SyncRun.SyncRecordings(cfg, world, old(dest.State()), FreshCounters(jobId), listing.value);
        && raised == s.raised && dest.State() == s.dest && log == s.log
        && publisher.state == JobEnded(s.c.p, !raised) && Metrics(files, bytes, failures) == s.c.m
    {
      publisher.BeginJob(0, jobId);
      match listing {
        case None =>
          PrepareDestination();
          raised := true;
        case Some(names) =>
          raised := SyncRecordings(names);
          DlRecordingsSameJob(
            cfg, world, Ready(cfg, old(dest.State()), FreshCounters(jobId), names), Wants(cfg, names));
      }
      publisher.EndJob(!raised);
    }
  }
}
