/** From the sync to the viewer: after a run without failures the viewer's index has an entry for
    every wanted recording, with the files that the run stored for it. */
module SyncedView {
  import opened Common
  import opened Download
  import opened Recordings
  import opened SyncRun
  import opened Entries
  import opened EntryContents

  /** The names of the files of one directory of the destination. */
  ghost predicate AreIn(d: Dest, dir: string, files: seq<string>)
  {
    forall n :: n in files <==> Path(dir, n) in d.files
  }

  /** The entry shows the recording's direction, and of its other artifacts those not skipped. */
  ghost predicate Shows(e: Entry, r: Recording, skip: set<Artifact>)
  {
    && (exists v :: (r.direction, v) in e.videos)
    && (Thm !in skip ==> exists t :: (r.direction, t) in e.thumbs)
    && (Gps !in skip ==> e.hasGps)
    && (Accel !in skip ==> e.hasAccel)
  }

  lemma {:induction false} SomeChosen(files: seq<string>, known: string, key: Instant, c: char) returns (v: string)
    requires IsVideoIn(files, key, c, known)
    ensures IsChosen(files, key, c, v)
  {
    PickOfKnown(files, key, c, known);
    v := PickVideo(files, key, c).value;
    PickIsChosen(files, key, c, known, v);
  }

  lemma PickOfKnown(files: seq<string>, key: Instant, c: char, known: string)
    requires IsVideoIn(files, key, c, known)
    ensures c in DIRECTIONS && PickVideo(files, key, c).Some?
  {
    StemOf(known, key);
  }

  lemma StoredIsShown(e: Entry, r: Recording, g: Grouping, skip: set<Artifact>, files: seq<string>)
    requires ToRecording(r.filename, g) == Some(r) && e.base == r.base && e.kind == r.kind
    requires HoldsFiles(e, files)
    requires forall a :: a == Mp4 || a !in skip ==> FileName(r, a) in files
    ensures Shows(e, r, skip)
  {
    var key := (r.base, r.kind);
    assert FileName(r, Mp4) == r.filename && IsVideoIn(files, key, r.direction, r.filename);
    var v := SomeChosen(files, r.filename, key, r.direction);
    if Thm !in skip {
      assert FileName(r, Thm) in files;
      assert IsThumb(files, key, r.direction, v, FileName(r, Thm));
      assert (r.direction, FileName(r, Thm)) in e.thumbs;
    }
    assert Gps !in skip ==> FileName(r, Gps) in files;
    assert Accel !in skip ==> FileName(r, Accel) in files;
  }

  lemma PresentIsListed(d: Dest, r: Recording, files: seq<string>, a: Artifact)
    requires AreIn(d, r.dir, files) && Present(d, r, a)
    ensures FileName(r, a) in files
  {
    assert Final(r.dir, FileName(r, a)) == Path(r.dir, FileName(r, a));
  }

  lemma EntryFor(files: seq<string>, r: Recording, g: Grouping) returns (e: Entry)
    requires ToRecording(r.filename, g) == Some(r) && r.filename in files
    ensures e in EntriesInDir(r.dir, files) && e.base == r.base && e.kind == r.kind
  {
    EntriesAreTheInstants(r.dir, files);
    e :| e in EntriesInDir(r.dir, files) && (e.base, e.kind) == KeyIn(r.filename);
  }

  lemma PresentIsShown(d: Dest, r: Recording, g: Grouping, skip: set<Artifact>, files: seq<string>)
    requires ToRecording(r.filename, g) == Some(r) && AreIn(d, r.dir, files)
    requires forall a :: a == Mp4 || a !in skip ==> Present(d, r, a)
    ensures exists e :: e in EntriesInDir(r.dir, files) && e.base == r.base && e.kind == r.kind && Shows(e, r, skip)
  {
    forall a | a == Mp4 || a !in skip ensures FileName(r, a) in files { PresentIsListed(d, r, files, a); }
    assert FileName(r, Mp4) in files;
    var e := EntryFor(files, r, g);
    EntryIsExact(r.dir, files, e);
    StoredIsShown(e, r, g, skip, files);
  }

  /** MAIN: what the sync stores the viewer finds, under the names both use: after a clean run the
      entries of each wanted recording's directory have one for it, and it shows its video and
      every artifact that is not skipped. */
  lemma SyncedIsShown(cfg: Config, w: World, d: Dest, c: Counters, listing: seq<string>, r: Recording,
      files: seq<string>)
    requires ValidConfig(cfg) && !cfg.o.dryRun
    requires var s := SyncRecordings(cfg, w, d, c, listing);
      !s.raised && s.c.p.failed == 0 && RecentlyFailed !in s.log
    requires r in Selected(listing, cfg.selection)
    requires AreIn(SyncRecordings(cfg, w, d, c, listing).dest, r.dir, files)
    ensures exists e :: e in EntriesInDir(r.dir, files) && e.base == r.base && e.kind == r.kind && Shows(e, r, cfg.skip)
  {
    var first := SyncRecordings(cfg, w, d, c, listing).dest;
    SecondRunIsIdle(cfg, w, w, d, c, c, listing);
    assert forall a :: a == Mp4 || a !in cfg.skip ==> Present(first, r, a);
    SelectedIffWanted(listing, cfg.selection, r);
    ParsedIffNamed(r, cfg.selection.grouping);
    PresentIsShown(first, r, cfg.selection.grouping, cfg.skip, files);
  }
}
