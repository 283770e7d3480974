/** The file protocol of SettingsStore._save (blackvuesync/settings.py) against crashes: contents
    and directory entries that have not been synced may or may not have reached the disk. A
    rename reaches it as a whole or not at all. */
module AtomicFile {
  import opened Common

  datatype Name = Target | Temp

  /** A file: its contents as processes see them, and, if every write has been synced since the
      last one, that these are what a crash leaves. */
  datatype Inode = Inode(cached: string, synced: bool)

  type Directory = map<Name, nat>

  /** `history` holds the states of the directory since it was last synced, the current one last:
      a crash leaves any one of them. */
  datatype Disk = Disk(inodes: seq<Inode>, history: seq<Directory>)

  function Current(d: Disk): Directory
    requires |d.history| > 0
  {
    d.history[|d.history| - 1]
  }

  datatype Op = Open | Write(chunk: string) | Sync | Chmod | Replace | SyncDirectory | Unlink

  function Exec(d: Disk, op: Op): Disk
    requires WellFormed(d)
  {
    var dir := Current(d);
    match op
    case Open =>
      if Temp in dir then d.(inodes := d.inodes[dir[Temp] := Inode("", false)])
      else d.(inodes := d.inodes + [Inode("", false)], history := d.history + [dir[Temp := |d.inodes|]])
    case Write(chunk) =>
      if Temp !in dir then d
      else d.(inodes := d.inodes[dir[Temp] := Inode(d.inodes[dir[Temp]].cached + chunk, false)])
    case Sync =>
      if Temp !in dir then d
      else d.(inodes := d.inodes[dir[Temp] := d.inodes[dir[Temp]].(synced := true)])
    case Chmod => d
    case Replace =>
      if Temp !in dir then d else d.(history := d.history + [dir[Target := dir[Temp]] - {Temp}])
    case SyncDirectory => d.(history := [dir])
    case Unlink => if Temp !in dir then d else d.(history := d.history + [dir - {Temp}])
  }

  predicate WellFormed(d: Disk)
  {
    && |d.history| > 0
    && forall i, n :: 0 <= i < |d.history| && n in d.history[i] ==> d.history[i][n] < |d.inodes|
  }

  function ExecAll(d: Disk, ops: seq<Op>): (r: Disk)
    requires WellFormed(d)
    ensures WellFormed(r)
  {
    if |ops| == 0 then d else Exec(ExecAll(d, ops[..|ops| - 1]), ops[|ops| - 1])
  }

  function Writes(chunks: seq<string>): (r: seq<Op>)
    ensures |r| == |chunks|
    ensures forall i :: 0 <= i < |r| ==> r[i] == Write(chunks[i])
  {
    if |chunks| == 0 then [] else Writes(chunks[..|chunks| - 1]) + [Write(chunks[|chunks| - 1])]
  }

  /** The calls of _save, for a text that is written in some chunks. */
  function SaveOps(chunks: seq<string>): seq<Op>
  {
    [Open] + Writes(chunks) + [Sync, Chmod, Replace, SyncDirectory]
  }

  function Text(chunks: seq<string>): string
  {
    if |chunks| == 0 then "" else Text(chunks[..|chunks| - 1]) + chunks[|chunks| - 1]
  }

  /** How a save ends after `done` calls: normally, with an exception (`removed` says whether the
      temporary file could be removed; this is tried only up to the sync), or in a crash, after
      which the disk holds directory state `kept` and, in files that were not synced, anything. */
  datatype Ending = Completed | Raised(removed: bool) | Crashed(kept: nat, garbage: seq<string>)

  datatype Save = Save(chunks: seq<string>, done: nat, ending: Ending)

  function Recovered(d: Disk, kept: nat, garbage: seq<string>): Disk
    requires kept < |d.history|
  {
    Disk(seq(|d.inodes|, i requires 0 <= i < |d.inodes| =>
           if d.inodes[i].synced then d.inodes[i]
           else Inode(if i < |garbage| then garbage[i] else "", true)),
         [d.history[kept]])
  }

  predicate Possible(d: Disk, s: Save)
    requires WellFormed(d)
  {
    && s.done <= |SaveOps(s.chunks)|
    && (s.ending.Completed? ==> s.done == |SaveOps(s.chunks)|)
    && (s.ending.Crashed? ==> s.ending.kept < |ExecAll(d, SaveOps(s.chunks)[..s.done]).history|)
  }

  function Saved(d: Disk, s: Save): Disk
    requires WellFormed(d) && Possible(d, s)
  {
    var after := ExecAll(d, SaveOps(s.chunks)[..s.done]);
    match s.ending
    case Completed => after
    case Raised(removed) => if removed && s.done <= |s.chunks| + 1 then Exec(after, Unlink) else after
    case Crashed(kept, garbage) => Recovered(after, kept, garbage)
  }

  /** What a reader finds under the file's name. */
  function Read(d: Disk): Option<string>
    requires WellFormed(d)
  {
    if Target in Current(d) then Some(d.inodes[Current(d)[Target]].cached) else None
  }

  /** What a crash may leave there. */
  function ReadAt(d: Disk, i: nat): Option<string>
    requires WellFormed(d) && i < |d.history|
  {
    if Target in d.history[i] then Some(d.inodes[d.history[i][Target]].cached) else None
  }

  /** What the file's name may lead to, now or after a crash. */
  function Texts(d: Disk): set<Option<string>>
    requires WellFormed(d)
  {
    set i | 0 <= i < |d.history| :: ReadAt(d, i)
  }

  /** Nothing that the file's name may lead to is incomplete, or the file being written. */
  ghost predicate Safe(d: Disk)
  {
    && WellFormed(d)
    && (forall i :: 0 <= i < |d.history| && Target in d.history[i] ==> d.inodes[d.history[i][Target]].synced)
    && (forall i :: 0 <= i < |d.history| && Target in d.history[i] && Temp in d.history[i] ==>
          d.history[i][Target] != d.history[i][Temp])
    && (Temp in Current(d) ==> Apart(d, Current(d)[Temp]))
  }

  ghost predicate Apart(d: Disk, ino: nat)
  {
    forall i :: 0 <= i < |d.history| && Target in d.history[i] ==> d.history[i][Target] != ino
  }

  /** Before the rename: the temporary file holds `text`, and nothing else has changed. */
  ghost predicate Written(d0: Disk, d: Disk, text: string)
  {
    && Safe(d) && WellFormed(d0) && Texts(d) == Texts(d0) && Read(d) == Read(d0)
    && Temp in Current(d) && d.inodes[Current(d)[Temp]].cached == text
  }

  lemma {:induction false} TextsPush(d: Disk, next: Disk, dir: Directory)
    requires WellFormed(d) && WellFormed(next) && next.history == d.history + [dir]
    requires forall i :: 0 <= i < |d.history| ==> ReadAt(next, i) == ReadAt(d, i)
    ensures Texts(next) == Texts(d) + {ReadAt(next, |d.history|)}
  {
    forall x | x in Texts(d)
      ensures x in Texts(next)
    {
      var i :| 0 <= i < |d.history| && ReadAt(d, i) == x;
      assert ReadAt(next, i) == x;
    }
    assert ReadAt(next, |d.history|) in Texts(next);
  }

  lemma {:induction false} TextsStay(d: Disk, next: Disk)
    requires WellFormed(d) && WellFormed(next) && |next.history| == |d.history|
    requires forall i :: 0 <= i < |d.history| ==> ReadAt(next, i) == ReadAt(d, i)
    ensures Texts(next) == Texts(d) && Read(next) == Read(d)
  {
    assert Read(next) == ReadAt(next, |d.history| - 1) && Read(d) == ReadAt(d, |d.history| - 1);
    forall x | x in Texts(d)
      ensures x in Texts(next)
    {
      var i :| 0 <= i < |d.history| && ReadAt(d, i) == x;
      assert ReadAt(next, i) == x;
    }
  }

  lemma {:induction false} AfterOpen(d: Disk)
    requires Safe(d)
    ensures Written(d, Exec(d, Open), "")
  {
    var next := Exec(d, Open);
    if Temp in Current(d) {
      TextsStay(d, next);
    } else {
      TextsPush(d, next, Current(d)[Temp := |d.inodes|]);
      assert ReadAt(next, |d.history|) == ReadAt(d, |d.history| - 1);
      assert ReadAt(d, |d.history| - 1) in Texts(d);
    }
  }

  lemma {:induction false} AfterWrite(d0: Disk, d: Disk, text: string, op: Op)
    requires Written(d0, d, text) && (op.Write? || op.Sync? || op.Chmod?)
    ensures Written(d0, Exec(d, op), if op.Write? then text + op.chunk else text)
    ensures op.Sync? ==> Exec(d, op).inodes[Current(d)[Temp]].synced
    ensures op.Chmod? ==> Exec(d, op) == d
  {
    TextsStay(d, Exec(d, op));
  }

  lemma {:induction false} AfterReplace(d: Disk)
    requires Safe(d) && Temp in Current(d) && d.inodes[Current(d)[Temp]].synced
    ensures
      var text := Some(d.inodes[Current(d)[Temp]].cached);
      var next := Exec(d, Replace);
      Safe(next) && Texts(next) == Texts(d) + {text} && Read(next) == text
  {
    var dir := Current(d);
    TextsPush(d, Exec(d, Replace), dir[Target := dir[Temp]] - {Temp});
  }

  lemma {:induction false} AfterUnlink(d: Disk)
    requires Safe(d)
    ensures Safe(Exec(d, Unlink)) && Texts(Exec(d, Unlink)) == Texts(d) && Read(Exec(d, Unlink)) == Read(d)
  {
    if Temp in Current(d) {
      var next := Exec(d, Unlink);
      TextsPush(d, next, Current(d) - {Temp});
      assert ReadAt(next, |d.history|) == ReadAt(d, |d.history| - 1);
      assert ReadAt(d, |d.history| - 1) in Texts(d);
    }
  }

  lemma {:induction false} AfterSyncDirectory(d: Disk)
    requires Safe(d)
    ensures Safe(Exec(d, SyncDirectory)) && Texts(Exec(d, SyncDirectory)) == {Read(d)}
    ensures Read(Exec(d, SyncDirectory)) == Read(d)
  {
    var next := Exec(d, SyncDirectory);
    assert ReadAt(next, 0) == Read(d);
  }

  lemma {:induction false} AfterCrash(d: Disk, kept: nat, garbage: seq<string>)
    requires Safe(d) && kept < |d.history|
    ensures Safe(Recovered(d, kept, garbage))
    ensures Read(Recovered(d, kept, garbage)) in Texts(d)
    ensures Texts(Recovered(d, kept, garbage)) == {Read(Recovered(d, kept, garbage))}
  {
    var next := Recovered(d, kept, garbage);
    assert ReadAt(next, 0) == ReadAt(d, kept);
    assert ReadAt(d, kept) in Texts(d);
  }

  lemma {:induction false} OpAt(chunks: seq<string>, i: nat)
    requires i < |SaveOps(chunks)|
    ensures
      var n := |chunks|;
      SaveOps(chunks)[i] ==
      if i == 0 then Open else if i <= n then Write(chunks[i - 1]) else
      if i == n + 1 then Sync else if i == n + 2 then Chmod else if i == n + 3 then Replace else SyncDirectory
    ensures SaveOps(chunks)[..i + 1][..i] == SaveOps(chunks)[..i]
  {
  }

  lemma {:induction false} TextPush(chunks: seq<string>, i: nat)
    requires i < |chunks|
    ensures Text(chunks[..i + 1]) == Text(chunks[..i]) + chunks[i]
  {
    assert chunks[..i + 1][..i] == chunks[..i];
  }

  function Step(d: Disk, chunks: seq<string>, k: nat): Disk
    requires WellFormed(d) && k <= |SaveOps(chunks)|
  {
    ExecAll(d, SaveOps(chunks)[..k])
  }

  lemma {:induction false} StepPush(d: Disk, chunks: seq<string>, k: nat)
    requires WellFormed(d) && k < |SaveOps(chunks)|
    ensures Step(d, chunks, k + 1) == Exec(Step(d, chunks, k), SaveOps(chunks)[k])
  {
    OpAt(chunks, k);
  }

  /** Up to the rename a save only works on its temporary file. */
  lemma {:induction false} BeforeRename(d: Disk, chunks: seq<string>, k: nat)
    requires Safe(d) && 1 <= k <= |chunks| + 3
    ensures Written(d, Step(d, chunks, k), Text(chunks[..if k <= |chunks| then k - 1 else |chunks|]))
    ensures k >= |chunks| + 2 ==> Step(d, chunks, k).inodes[Current(Step(d, chunks, k))[Temp]].synced
  {
    var n := |chunks|;
    StepPush(d, chunks, k - 1);
    OpAt(chunks, k - 1);
    if k == 1 {
      assert SaveOps(chunks)[..0] == [];
      AfterOpen(d);
      assert chunks[..0] == [];
    } else {
      BeforeRename(d, chunks, k - 1);
      var done := if k - 1 <= n then k - 2 else n;
      AfterWrite(d, Step(d, chunks, k - 1), Text(chunks[..done]), SaveOps(chunks)[k - 1]);
      if k <= n + 1 { TextPush(chunks, k - 2); }
    }
  }

  predicate Renamed(s: Save) { s.done >= |s.chunks| + 4 }

  lemma {:induction false} AllCallsRead(d: Disk, chunks: seq<string>, k: nat)
    requires Safe(d) && k <= |SaveOps(chunks)|
    ensures Safe(Step(d, chunks, k))
    ensures k < |chunks| + 4 ==> Texts(Step(d, chunks, k)) == Texts(d) && Read(Step(d, chunks, k)) == Read(d)
    ensures k == |chunks| + 4 ==>
      Texts(Step(d, chunks, k)) == Texts(d) + {Some(Text(chunks))} && Read(Step(d, chunks, k)) == Some(Text(chunks))
    ensures k == |chunks| + 5 ==>
      Texts(Step(d, chunks, k)) == {Some(Text(chunks))} && Read(Step(d, chunks, k)) == Some(Text(chunks))
  {
    var n := |chunks|;
    if k == 0 {
    } else if k <= n + 3 {
      BeforeRename(d, chunks, k);
    } else {
      StepPush(d, chunks, k - 1);
      OpAt(chunks, k - 1);
      if k == n + 4 {
        BeforeRename(d, chunks, n + 3);
        assert chunks[..n] == chunks;
        AfterReplace(Step(d, chunks, n + 3));
      } else {
        AllCallsRead(d, chunks, n + 4);
        AfterSyncDirectory(Step(d, chunks, n + 4));
      }
    }
  }

  /** MAIN: a save, wherever it ends: the name leads to what it led to before or to the whole new text,
      now and after a later crash; only to the new text when the save completed, and only to
      what was there before when it did not get as far as the rename. */
  lemma {:induction false} SaveIsAtomic(d: Disk, s: Save)
    requires Safe(d) && Possible(d, s)
    ensures Safe(Saved(d, s))
    ensures Texts(Saved(d, s)) <= Texts(d) + {Some(Text(s.chunks))}
    ensures Read(Saved(d, s)) in Texts(Saved(d, s))
    ensures !Renamed(s) ==> Texts(Saved(d, s)) <= Texts(d)
    ensures s.ending.Completed? ==> Texts(Saved(d, s)) == {Some(Text(s.chunks))}
    ensures s.ending.Raised? ==> Read(Saved(d, s)) == if Renamed(s) then Some(Text(s.chunks)) else Read(d)
  {
    AllCallsRead(d, s.chunks, s.done);
    var after := Step(d, s.chunks, s.done);
    match s.ending {
      case Completed =>
      case Raised(removed) => AfterUnlink(after);
      case Crashed(kept, garbage) => AfterCrash(after, kept, garbage);
    }
    ReadIsOneOfTexts(Saved(d, s));
  }

  lemma {:induction false} ReadIsOneOfTexts(d: Disk)
    requires WellFormed(d)
    ensures Read(d) in Texts(d)
  {
    assert ReadAt(d, |d.history| - 1) == Read(d);
  }

  /** When the last save completed, a crash at any point of the next one leaves the old file or
      the new one, complete. */
  lemma {:induction false} CrashLeavesOldOrNew(d: Disk, first: Save, second: Save)
    requires Safe(d) && Possible(d, first) && first.ending.Completed?
    requires WellFormed(Saved(d, first)) && Possible(Saved(d, first), second) && second.ending.Crashed?
    ensures
      var found := Read(Saved(Saved(d, first), second));
      found == Some(Text(first.chunks)) || found == Some(Text(second.chunks))
  {
    SaveIsAtomic(d, first);
    SaveIsAtomic(Saved(d, first), second);
  }

  function Run(d: Disk, saves: seq<Save>): Option<Disk>
  {
    if |saves| == 0 then Some(d) else
    var before := Run(d, saves[..|saves| - 1]);
    if before.None? || !WellFormed(before.value) || !Possible(before.value, saves[|saves| - 1]) then None
    else Some(Saved(before.value, saves[|saves| - 1]))
  }

  /** MAIN: over any sequence of saves, failures and crashes, the file is absent only if it was to begin
      with, and otherwise holds a whole text: the first, or that of a save that reached its
      rename. */
  lemma {:induction false} NeverPartial(d: Disk, saves: seq<Save>)
    requires Safe(d) && Run(d, saves).Some?
    ensures Safe(Run(d, saves).value)
    ensures forall x :: x in Texts(Run(d, saves).value) ==>
      x in Texts(d) || exists i :: 0 <= i < |saves| && Renamed(saves[i]) && x == Some(Text(saves[i].chunks))
  {
    if |saves| > 0 {
      var front, last := saves[..|saves| - 1], saves[|saves| - 1];
      var before := Run(d, front).value;
      NeverPartial(d, front);
      SaveIsAtomic(before, last);
      forall x | x in Texts(Run(d, saves).value) && x !in Texts(d)
        ensures exists i :: 0 <= i < |saves| && Renamed(saves[i]) && x == Some(Text(saves[i].chunks))
      {
        if x in Texts(before) {
          var i :| 0 <= i < |front| && Renamed(front[i]) && x == Some(Text(front[i].chunks));
          assert saves[i] == front[i];
        } else {
          assert saves[|saves| - 1] == last;
        }
      }
    }
  }

  lemma {:induction false} TextIsFlat(chunks: seq<string>)
    ensures Text(chunks) == Flatten(chunks)
  {
    if |chunks| > 0 {
      var front := chunks[..|chunks| - 1];
      TextIsFlat(front);
      assert chunks == front + [chunks[|chunks| - 1]];
      FlattenSnoc(front, chunks[|chunks| - 1]);
    }
  }

  predicate RanThrough(s: Save) { s.ending.Completed? && s.done == |SaveOps(s.chunks)| }

  lemma ThroughIsRead(d: Disk, s: Save)
    requires Safe(d) && RanThrough(s)
    ensures Possible(d, s) && Safe(Saved(d, s))
    ensures Texts(Saved(d, s)) == {Some(Flatten(s.chunks))} && Read(Saved(d, s)) == Some(Flatten(s.chunks))
  {
    TextIsFlat(s.chunks);
    SaveIsAtomic(d, s);
  }

  /** Saves that run through are always possible, and the last one is what is read, whole, now and
      after a crash. */
  lemma {:induction false} LastSaveIsRead(d: Disk, saves: seq<Save>)
    requires Safe(d) && |saves| > 0 && forall i :: 0 <= i < |saves| ==> RanThrough(saves[i])
    ensures Run(d, saves).Some? && Safe(Run(d, saves).value)
    ensures Read(Run(d, saves).value) == Some(Flatten(saves[|saves| - 1].chunks))
    ensures Texts(Run(d, saves).value) == {Some(Flatten(saves[|saves| - 1].chunks))}
  {
    var front := saves[..|saves| - 1];
    if |front| > 0 { LastSaveIsRead(d, front); }
    ThroughIsRead(Run(d, front).value, saves[|saves| - 1]);
  }

  /** From a directory without the file, or with one at rest, a save that runs through is read. */
  lemma {:induction false} SavedFromScratch(before: string, chunks: seq<string>)
    ensures
      var empty, rest := Disk([], [map[]]), Disk([Inode(before, true)], [map[Target := 0]]);
      var saves := [Save(chunks, |chunks| + 5, Completed)];
      && Safe(empty) && Run(empty, saves).Some? && Read(Run(empty, saves).value) == Some(Flatten(chunks))
      && Safe(rest) && Read(rest) == Some(before)
      && Run(rest, saves).Some? && Read(Run(rest, saves).value) == Some(Flatten(chunks))
  {
    LastSaveIsRead(Disk([], [map[]]), [Save(chunks, |chunks| + 5, Completed)]);
    LastSaveIsRead(Disk([Inode(before, true)], [map[Target := 0]]), [Save(chunks, |chunks| + 5, Completed)]);
  }
}
