/** Recording names, filters, retention and pruning (blackvuesync/sync.py). Dates are the
    first eight digits of a name read as a number; on dates of the calendar this is their order. */
module Recordings {
  import opened Common
  import opened Download

  const TYPES := "NEPMIOATBRXGDLYF"
  const DIRECTIONS := "FRIO"

  predicate IsDigit(c: char) { '0' <= c <= '9' }

  predicate Digits(s: string) { forall i :: 0 <= i < |s| ==> IsDigit(s[i]) }

  function Number(s: string): nat
    requires Digits(s)
  {
    if |s| == 0 then 0 else 10 * Number(s[..|s| - 1]) + (s[|s| - 1] - '0') as nat
  }

  /** YYYYMMDD_hhmmss */
  predicate IsBase(s: string) { |s| == 15 && Digits(s[..8]) && s[8] == '_' && Digits(s[9..]) }

  function DateOf(base: string): nat
    requires IsBase(base)
  {
    Number(base[..8])
  }

  /** A grouping: the directory of each recording time, and the directories its glob reaches. */
  datatype Grouping = Grouping(nameOf: string -> string, reaches: string -> bool)

  ghost predicate ValidGrouping(g: Grouping)
  {
    forall base :: IsBase(base) ==> g.reaches(g.nameOf(base))
  }

  datatype Recording = Recording(filename: string, base: string, dir: string, kind: char, direction: char)

  predicate IsRecordingName(s: string)
  {
    && |s| >= 22 && IsBase(s[..15]) && s[15] == '_' && s[16] in TYPES && s[17] in DIRECTIONS
    && (s[18..] == ".mp4" || (s[18] in "LS" && s[19..] == ".mp4"))
  }

  function ToRecording(filename: string, g: Grouping): Option<Recording>
  {
    if IsRecordingName(filename) then
      Some(Recording(filename, filename[..15], g.nameOf(filename[..15]), filename[16], filename[17]))
    else None
  }

  function ToRecordings(listing: seq<string>, g: Grouping): (r: seq<Recording>)
    ensures forall x :: x in r ==> ToRecording(x.filename, g) == Some(x)
  {
    if listing == [] then []
    else
      var rest := ToRecordings(listing[1..], g);
      match ToRecording(listing[0], g)
      case None => rest
      case Some(r) => [r] + rest
  }

  datatype Artifact = Mp4 | Thm | Accel | Gps

  const ARTIFACTS := [Mp4, Thm, Accel, Gps]

  function FileName(r: Recording, a: Artifact): string
  {
    match a
    case Mp4 => r.filename
    case Thm => r.base + "_" + [r.kind, r.direction] + ".thm"
    case Accel => r.base + "_" + [r.kind] + ".3gf"
    case Gps => r.base + "_" + [r.kind] + ".gps"
  }

  // ---- which recordings are wanted ---------------------------------------------------------

  predicate MatchesFilter(r: Recording, code: string)
  {
    if |code| == 1 then [r.kind] == code else [r.kind, r.direction] == code
  }

  predicate IsCurrent(r: Recording, cutoff: Option<nat>)
  {
    IsBase(r.base) && (cutoff.Some? ==> DateOf(r.base) >= cutoff.value)
  }

  function CurrentRecordings(recordings: seq<Recording>, cutoff: Option<nat>): seq<Recording>
  {
    if cutoff.None? then recordings else Filter(recordings, (r: Recording) => IsCurrent(r, cutoff))
  }

  function ApplyFilters(recordings: seq<Recording>, only: seq<string>, without: seq<string>): seq<Recording>
  {
    var kept := if |only| == 0 then recordings
      else Filter(recordings, (r: Recording) => exists c | c in only :: MatchesFilter(r, c));
    if |without| == 0 then kept
    else Filter(kept, (r: Recording) => !exists c | c in without :: MatchesFilter(r, c))
  }

  datatype Selection = Selection(grouping: Grouping, cutoff: Option<nat>, only: seq<string>, without: seq<string>)

  function Selected(listing: seq<string>, s: Selection): seq<Recording>
  {
    ApplyFilters(CurrentRecordings(ToRecordings(listing, s.grouping), s.cutoff), s.only, s.without)
  }

  /** The parts of a recording's name: time, type, direction, and the upload flag if any. */
  ghost predicate IsNamed(r: Recording, g: Grouping)
  {
    && IsBase(r.base) && r.kind in TYPES && r.direction in DIRECTIONS && r.dir == g.nameOf(r.base)
    && (exists ext :: (ext == ".mp4" || ext == "L.mp4" || ext == "S.mp4")
          && r.filename == r.base + "_" + [r.kind, r.direction] + ext)
  }

  /** A code of one character is a type; one of two is a type and a direction. */
  predicate Selects(code: string, r: Recording) { code == [r.kind] || code == [r.kind, r.direction] }

  ghost predicate Wanted(r: Recording, s: Selection)
  {
    && IsNamed(r, s.grouping)
    && (s.cutoff.Some? ==> Number(r.base[..8]) >= s.cutoff.value)
    && (|s.only| > 0 ==> exists c :: c in s.only && Selects(c, r))
    && (forall c :: c in s.without ==> !Selects(c, r))
  }

  lemma ParsedIsNamed(r: Recording, g: Grouping)
    requires ToRecording(r.filename, g) == Some(r)
    ensures IsNamed(r, g)
  {
    var n := r.filename;
    assert n[18..] != ".mp4" ==> n[18..] == [n[18]] + n[19..];
    assert n == r.base + "_" + [r.kind, r.direction] + n[18..];
  }

  lemma NamedIsParsed(r: Recording, g: Grouping, ext: string)
    requires IsBase(r.base) && r.kind in TYPES && r.direction in DIRECTIONS && r.dir == g.nameOf(r.base)
    requires ext == ".mp4" || ext == "L.mp4" || ext == "S.mp4"
    requires r.filename == r.base + "_" + [r.kind, r.direction] + ext
    ensures ToRecording(r.filename, g) == Some(r)
  {
    var n := r.filename;
    assert n[..15] == r.base && n[18..] == ext && (ext != ".mp4" ==> n[19..] == ext[1..]);
  }

  /** A name is parsed iff it is put together from these parts, and into them. */
  lemma ParsedIffNamed(r: Recording, g: Grouping)
    ensures ToRecording(r.filename, g) == Some(r) <==> IsNamed(r, g)
  {
    if ToRecording(r.filename, g) == Some(r) {
      ParsedIsNamed(r, g);
    } else if IsNamed(r, g) {
      var ext :| (ext == ".mp4" || ext == "L.mp4" || ext == "S.mp4")
        && r.filename == r.base + "_" + [r.kind, r.direction] + ext;
      NamedIsParsed(r, g, ext);
    }
  }

  lemma MatchesIffSelects(r: Recording, code: string)
    ensures MatchesFilter(r, code) <==> Selects(code, r)
  {
  }

  lemma {:induction false} ToRecordingsHasAll(listing: seq<string>, g: Grouping, r: Recording)
    requires r.filename in listing && ToRecording(r.filename, g) == Some(r)
    ensures r in ToRecordings(listing, g)
  {
    if r.filename != listing[0] {
      ToRecordingsHasAll(listing[1..], g, r);
    }
  }

  lemma {:induction false} ToRecordingsOnlyListed(listing: seq<string>, g: Grouping, r: Recording)
    requires r in ToRecordings(listing, g)
    ensures r.filename in listing
  {
    if listing != [] && r in ToRecordings(listing[1..], g) {
      ToRecordingsOnlyListed(listing[1..], g, r);
    }
  }

  /** MAIN: a listed recording is selected iff it is not before the cutoff, matches some
      include code (if there are any) and no exclude code. */
  lemma SelectedIffWanted(listing: seq<string>, s: Selection, r: Recording)
    ensures r in Selected(listing, s) <==> r.filename in listing && Wanted(r, s)
  {
    var all := ToRecordings(listing, s.grouping);
    if r in all {
      assert ToRecording(r.filename, s.grouping) == Some(r);
      ToRecordingsOnlyListed(listing, s.grouping, r);
    }
    if r.filename in listing && ToRecording(r.filename, s.grouping) == Some(r) {
      ToRecordingsHasAll(listing, s.grouping, r);
    }
    var current := CurrentRecordings(all, s.cutoff);
    assert r in current <==> r in all && (s.cutoff.Some? ==> DateOf(r.base) >= s.cutoff.value);
    ParsedIffNamed(r, s.grouping);
    forall c ensures MatchesFilter(r, c) <==> Selects(c, r) { MatchesIffSelects(r, c); }
  }

  lemma FileNameShape(r: Recording, g: Grouping, a: Artifact)
    requires ToRecording(r.filename, g) == Some(r)
    ensures var n := FileName(r, a); |n| >= 17 && n[..15] == r.base && n[15] == '_' && IsBase(r.base) && ArtifactName(n)
  {
    assert IsDigit(r.base[..8][0]);
  }

  // ---- retention -----------------------------------------------------------------------------

  /** The glob for files of any recording: base, underscore, anything with a dot. */
  predicate DownloadedGlob(n: string)
  {
    |n| >= 17 && IsBase(n[..15]) && n[15] == '_' && '.' in n[16..]
  }

  /** The glob for the files of one outdated recording. */
  predicate RemovalGlob(base: string, n: string)
  {
    |n| >= 18 && n[..15] == base && n[15] == '_' && n[16] in TYPES && '.' in n[17..]
  }

  /** A file of a recording, in the directory of its own group, dated before the cutoff. */
  predicate Outdated(g: Grouping, cutoff: nat, p: Path)
  {
    && |p.name| >= 18 && IsBase(p.name[..15])
    && RemovalGlob(p.name[..15], p.name)
    && p.dir == g.nameOf(p.name[..15])
    && DateOf(p.name[..15]) < cutoff
  }

  function Prepared(d: Dest, g: Grouping, cutoff: Option<nat>, dryRun: bool): Dest
  {
    if cutoff.None? || dryRun then d
    else Dest(map p | p in d.files && !Outdated(g, cutoff.value, p) :: d.files[p],
              map p | p in d.marks && !Outdated(g, cutoff.value, p) :: d.marks[p])
  }

  function OutdatedBases(d: Dest, g: Grouping, cutoff: nat): set<string>
  {
    (set p | p in d.files && g.reaches(p.dir) && DownloadedGlob(p.name) && DateOf(p.name[..15]) < cutoff
      :: p.name[..15])
    + (set p | p in d.marks && g.reaches(p.dir) && DownloadedGlob(p.name) && DateOf(p.name[..15]) < cutoff
      :: p.name[..15])
  }

  /** What the removal loop deletes for one outdated recording. */
  predicate RemovedFor(g: Grouping, base: string, p: Path) { p.dir == g.nameOf(base) && RemovalGlob(base, p.name) }

  /** The two-stage search finds exactly the outdated files: a file that the second glob
      removes for some base was itself seen by the first glob, and conversely. */
  lemma OutdatedIffRemoved(d: Dest, g: Grouping, cutoff: nat, p: Path)
    requires ValidGrouping(g) && (p in d.files || p in d.marks)
    ensures Outdated(g, cutoff, p) <==> exists base :: base in OutdatedBases(d, g, cutoff) && RemovedFor(g, base, p)
  {
    if Outdated(g, cutoff, p) {
      var base := p.name[..15];
      assert p.name[16..][1..] == p.name[17..];
      assert DownloadedGlob(p.name);
      assert base in OutdatedBases(d, g, cutoff) && RemovedFor(g, base, p);
    }
  }

  // ---- orphan partials -----------------------------------------------------------------------

  predicate TempGlob(n: string)
  {
    && |n| >= 19 && n[0] == '.' && IsBase(n[1..16]) && n[16] == '_'
    && n[17] in TYPES && '.' in n[18..]
  }

  predicate Orphan(expected: set<string>, p: Path)
  {
    p.dir == "" && TempGlob(p.name) && p.name[1..] !in expected
  }

  function Expected(recordings: seq<Recording>): set<string>
  {
    set r, a: Artifact | r in recordings :: FileName(r, a)
  }

  function Pruned(d: Dest, expected: set<string>, dryRun: bool): Dest
  {
    if dryRun then d else d.(files := map p | p in d.files && !Orphan(expected, p) :: d.files[p])
  }

  // ---- empty group directories ---------------------------------------------------------------

  predicate IsMp4(n: string) { |n| >= 4 && n[|n| - 4..] == ".mp4" }

  predicate HasVideo(d: Dest, dir: string)
  {
    exists p :: p in d.files.Keys + d.marks.Keys && p.dir == dir && IsMp4(p.name)
  }

  predicate Swept(d: Dest, g: Grouping, dir: string)
  {
    dir != "" && g.reaches(dir) && !HasVideo(d, dir)
  }

  function Cleaned(d: Dest, g: Grouping, dryRun: bool): Dest
  {
    if dryRun then d
    else Dest(map p | p in d.files && !Swept(d, g, p.dir) :: d.files[p],
              map p | p in d.marks && !Swept(d, g, p.dir) :: d.marks[p])
  }

  // ---- the three removals, said of the parts of a name ---------------------------------------------

  /** The name of a file of the recording of this time: its type, anything, a dot, anything. */
  ghost predicate IsFileName(n: string, base: string)
  {
    exists kind: char, mid: string, ext: string :: kind in TYPES && n == base + "_" + [kind] + mid + "." + ext
  }

  /** A file, in the directory of its own group, of a recording dated before the cutoff. */
  ghost predicate IsPast(g: Grouping, cutoff: nat, p: Path)
  {
    exists base :: IsBase(base) && IsFileName(p.name, base) && p.dir == g.nameOf(base) && Number(base[..8]) < cutoff
  }

  /** The dot-file of such a name. */
  ghost predicate IsPartialName(n: string)
  {
    exists base, rest :: IsBase(base) && n == "." + rest && IsFileName(rest, base)
  }

  lemma DotInside(s: string)
    ensures '.' in s <==> exists mid: string, ext: string :: s == mid + "." + ext
  {
    if '.' in s {
      var i :| 0 <= i < |s| && s[i] == '.';
      assert s == s[..i] + "." + s[i + 1..];
    }
    if mid: string, ext: string :| s == mid + "." + ext { assert s[|mid|] == '.'; }
  }

  lemma FileNameIff(n: string, base: string)
    requires |base| == 15
    ensures IsFileName(n, base) <==> RemovalGlob(base, n)
  {
    if IsFileName(n, base) {
      var kind: char, mid: string, ext: string :| kind in TYPES && n == base + "_" + [kind] + mid + "." + ext;
      assert n[17..] == mid + "." + ext;
      DotInside(n[17..]);
    }
    if RemovalGlob(base, n) {
      DotInside(n[17..]);
      var mid: string, ext: string :| n[17..] == mid + "." + ext;
      assert n == base + "_" + [n[16]] + (mid + "." + ext);
      assert n == base + "_" + [n[16]] + mid + "." + ext;
    }
  }

  /** The files that retention removes. */
  lemma OutdatedIffPast(g: Grouping, cutoff: nat, p: Path)
    ensures Outdated(g, cutoff, p) <==> IsPast(g, cutoff, p)
  {
    if Outdated(g, cutoff, p) { FileNameIff(p.name, p.name[..15]); }
    if IsPast(g, cutoff, p) {
      var base :|
        IsBase(base) && IsFileName(p.name, base) && p.dir == g.nameOf(base) && Number(base[..8]) < cutoff;
      FileNameIff(p.name, base);
    }
  }

  /** The names that pruning looks at. */
  lemma TempIffPartialName(n: string)
    ensures TempGlob(n) <==> IsPartialName(n)
  {
    if TempGlob(n) {
      var base, rest := n[1..16], n[1..];
      assert rest[..15] == base && rest[17..] == n[18..] && n == "." + rest;
      FileNameIff(rest, base);
    }
    if IsPartialName(n) {
      var base, rest :| IsBase(base) && n == "." + rest && IsFileName(rest, base);
      FileNameIff(rest, base);
      assert n[1..16] == base && n[18..] == rest[17..];
    }
  }

  /** The clean-up removes exactly the group directories without a name that ends in ".mp4". */
  lemma CleanedIs(d: Dest, g: Grouping, p: Path)
    ensures var c := Cleaned(d, g, false);
      var kept := p.dir == "" || !g.reaches(p.dir) || HoldsVideo(d, p.dir);
      && (p in c.files <==> p in d.files && kept) && (p in c.marks <==> p in d.marks && kept)
      && (p in c.files ==> c.files[p] == d.files[p]) && (p in c.marks ==> c.marks[p] == d.marks[p])
  {
    HasVideoIff(d, p.dir);
  }

  ghost predicate HoldsVideo(d: Dest, dir: string)
  {
    exists stem: string :: Path(dir, stem + ".mp4") in d.files || Path(dir, stem + ".mp4") in d.marks
  }

  lemma HasVideoIff(d: Dest, dir: string)
    ensures HasVideo(d, dir) <==> HoldsVideo(d, dir)
  {
    if HasVideo(d, dir) {
      var p :| p in d.files.Keys + d.marks.Keys && p.dir == dir && IsMp4(p.name);
      assert p.name == p.name[..|p.name| - 4] + ".mp4" && p == Path(dir, p.name);
    }
    if stem: string :| Path(dir, stem + ".mp4") in d.files || Path(dir, stem + ".mp4") in d.marks {
      var p := Path(dir, stem + ".mp4");
      assert p in d.files.Keys + d.marks.Keys && IsMp4(p.name);
    }
  }
}
