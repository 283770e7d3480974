/** What an index entry holds (blackvuesync/server/viewer_index.py:49-95), said of the files of its
    directory and not of how the entry is built; and what newest first means for base names. */
module EntryContents {
  import opened Common
  import opened Recordings
  import opened Entries

  // ---- the order of strings -------------------------------------------------------------------------

  /** Where two strings part, the smaller one has the smaller character or none. */
  ghost predicate PartsBelow(a: string, b: string, i: nat)
  {
    i <= |a| && i < |b| && a[..i] == b[..i] && (i == |a| || a[i] < b[i])
  }

  lemma {:induction false} LexLessIff(a: string, b: string)
    ensures LexLess(a, b) <==> exists i :: PartsBelow(a, b, i)
  {
    if |b| > 0 && |a| > 0 && a[0] == b[0] {
      LexLessIff(a[1..], b[1..]);
      if i: nat :| PartsBelow(a[1..], b[1..], i) {
        assert a[..i + 1] == [a[0]] + a[1..][..i] && b[..i + 1] == [b[0]] + b[1..][..i];
        assert PartsBelow(a, b, i + 1);
      }
      if i: nat :| PartsBelow(a, b, i) {
        if i > 0 {
          assert a[1..][..i - 1] == a[..i][1..] && b[1..][..i - 1] == b[..i][1..];
          assert PartsBelow(a[1..], b[1..], i - 1);
        }
      }
    } else {
      if LexLess(a, b) { assert PartsBelow(a, b, 0); }
      if i: nat :| PartsBelow(a, b, i) {
        if i > 0 { assert a[..i][0] == b[..i][0]; }
      }
    }
  }

  lemma {:induction false} LexAfterPrefix(p: string, a: string, b: string)
    ensures LexLess(p + a, p + b) <==> LexLess(a, b)
  {
    if |p| == 0 {
      assert p + a == a && p + b == b;
    } else {
      assert (p + a)[1..] == p[1..] + a && (p + b)[1..] == p[1..] + b;
      LexAfterPrefix(p[1..], a, b);
    }
  }

  lemma {:induction false} LexByFront(a: string, b: string)
    requires |a| == |b| > 0
    ensures LexLess(a, b)
      <==> LexLess(a[..|a| - 1], b[..|b| - 1]) || (a[..|a| - 1] == b[..|b| - 1] && a[|a| - 1] < b[|b| - 1])
  {
    var n := |a| - 1;
    if n > 0 {
      LexByFront(a[1..], b[1..]);
      assert a[1..][..n - 1] == a[..n][1..] && b[1..][..n - 1] == b[..n][1..];
      assert a[..n] == [a[0]] + a[..n][1..] && b[..n] == [b[0]] + b[..n][1..];
    }
  }

  /** Numbers of equally many digits are ordered like their texts. */
  lemma {:induction false} NumberOrder(a: string, b: string)
    requires Digits(a) && Digits(b) && |a| == |b|
    ensures Number(a) < Number(b) <==> LexLess(a, b)
    ensures Number(a) == Number(b) <==> a == b
    decreases |a|
  {
    if |a| > 0 {
      var n := |a| - 1;
      NumberOrder(a[..n], b[..n]);
      LexByFront(a, b);
      assert a == a[..n] + [a[n]] && b == b[..n] + [b[n]];
      assert IsDigit(a[n]) && IsDigit(b[n]);
    }
  }

  lemma {:induction false} LexByParts(a: string, b: string, n: nat)
    requires |a| == |b| && n <= |a|
    ensures LexLess(a, b) <==> LexLess(a[..n], b[..n]) || (a[..n] == b[..n] && LexLess(a[n..], b[n..]))
    decreases |a| - n
  {
    if n == |a| {
      assert a[..n] == a && b[..n] == b;
      assert !LexLess(a[n..], b[n..]);
    } else {
      LexByParts(a, b, n + 1);
      LexByFront(a[..n + 1], b[..n + 1]);
      assert a[..n + 1][..n] == a[..n] && b[..n + 1][..n] == b[..n];
      assert a[n..][1..] == a[n + 1..] && b[n..][1..] == b[n + 1..];
      assert a[..n + 1] == a[..n] + [a[n]] && b[..n + 1] == b[..n] + [b[n]];
    }
  }

  lemma TimeOrder(a: string, b: string)
    requires IsBase(a) && IsBase(b)
    ensures TimeOf(a) < TimeOf(b) <==> LexLess(a, b)
    ensures TimeOf(a) == TimeOf(b) <==> a == b
    ensures DateOf(a) < DateOf(b) <==> LexLess(a[..8], b[..8])
  {
    NumberOrder(a[..8], b[..8]);
    NumberOrder(a[9..], b[9..]);
    NumberBound(a[9..]);
    NumberBound(b[9..]);
    LexByParts(a, b, 8);
    LexByParts(a[8..], b[8..], 1);
    assert a[8..][..1] == "_" && b[8..][..1] == "_" && a[8..][1..] == a[9..] && b[8..][1..] == b[9..];
    LexTotal("_", "_");
    assert a == a[..8] + "_" + a[9..] && b == b[..8] + "_" + b[9..];
  }

  /** Newest first is by base name from the largest, and then by directory: the times that base
      names write out are ordered like their texts. */
  lemma KeyOrderIs(a: Entry, b: Entry)
    requires IsBase(a.base) && IsBase(b.base)
    ensures KeyLess(KeyOf(a), KeyOf(b))
      <==> LexLess(a.base, b.base) || (a.base == b.base && LexLess(a.relDir, b.relDir))
  {
    TimeOrder(a.base, b.base);
  }

  // ---- the videos of an entry -------------------------------------------------------------------------

  /** A video of this instant and direction. */
  ghost predicate IsVideoIn(files: seq<string>, key: Instant, c: char, v: string)
  {
    v in files && IsVideoOf(v, key) && v[17] == c
  }

  predicate Before(a: string, b: string) { |a| < |b| || (|a| == |b| && LexLess(a, b)) }

  /** The shortest of them, by name if several are. */
  ghost predicate IsChosen(files: seq<string>, key: Instant, c: char, v: string)
  {
    IsVideoIn(files, key, c, v) && forall n :: IsVideoIn(files, key, c, n) ==> !Before(n, v)
  }

  predicate IsFlag(ext: string) { ext == ".mp4" || ext == "L.mp4" || ext == "S.mp4" }

  lemma StemOf(v: string, key: Instant)
    requires IsVideoOf(v, key)
    ensures v == Stem(key, v[17]) + v[18..] && IsFlag(v[18..])
  {
    assert v == v[..15] + [v[15]] + [v[16], v[17]] + v[18..];
    if v[18..] != ".mp4" { assert v[18..] == [v[18]] + v[19..]; }
  }

  lemma StemIsVideo(v: string, key: Instant, c: char, ext: string)
    requires IsVideoOf(v, key) && c in DIRECTIONS && IsFlag(ext)
    ensures var n := Stem(key, c) + ext; IsVideoOf(n, key) && n[17] == c
  {
    var n := Stem(key, c) + ext;
    assert |Stem(key, c)| == 18 && n[..15] == key.0 && n[18..] == ext;
    assert ext != ".mp4" ==> n[19..] == ext[1..];
  }

  lemma FlagOrder(stem: string)
    ensures Before(stem + ".mp4", stem + "L.mp4") && Before(stem + ".mp4", stem + "S.mp4")
    ensures Before(stem + "L.mp4", stem + "S.mp4") && !Before(stem + "S.mp4", stem + "L.mp4")
    ensures !Before(stem + "L.mp4", stem + ".mp4") && !Before(stem + "S.mp4", stem + ".mp4")
    ensures forall ext :: IsFlag(ext) ==> !Before(stem + ext, stem + ext)
  {
    LexAfterPrefix(stem, "L.mp4", "S.mp4");
    LexTotal(stem + "L.mp4", stem + "S.mp4");
    forall ext | IsFlag(ext) ensures !Before(stem + ext, stem + ext) { LexTotal(stem + ext, stem + ext); }
  }

  lemma ChosenStem(files: seq<string>, key: Instant, c: char, ext: string, v: string)
    requires IsVideoOf(v, key) && c in DIRECTIONS && IsFlag(ext)
    ensures IsVideoIn(files, key, c, Stem(key, c) + ext) <==> Stem(key, c) + ext in files
  {
    StemIsVideo(v, key, c, ext);
  }

  /** The pick is the shortest video of the direction, by name if several are. */
  lemma PickIsChosen(files: seq<string>, key: Instant, c: char, known: string, v: string)
    requires IsVideoOf(known, key) && c in DIRECTIONS
    ensures PickVideo(files, key, c) == Some(v) <==> IsChosen(files, key, c, v)
  {
    var stem := Stem(key, c);
    ChosenStem(files, key, c, ".mp4", known);
    ChosenStem(files, key, c, "L.mp4", known);
    ChosenStem(files, key, c, "S.mp4", known);
    FlagOrder(stem);
    if IsVideoIn(files, key, c, v) { StemOf(v, key); }
    forall n | IsVideoIn(files, key, c, n) ensures exists ext :: IsFlag(ext) && n == stem + ext {
      StemOf(n, key);
    }
    if PickVideo(files, key, c) == Some(v) {
      forall n | IsVideoIn(files, key, c, n) ensures !Before(n, v) {
        var ext :| IsFlag(ext) && n == stem + ext;
      }
    }
  }

  ghost predicate Ascends(pairs: seq<(char, string)>)
  {
    forall i, j :: 0 <= i < j < |pairs| ==> pairs[i].0 < pairs[j].0
  }

  ghost predicate AscendingChars(s: seq<char>) { forall i, j :: 0 <= i < j < |s| ==> s[i] < s[j] }

  lemma {:induction false} VideosAre(files: seq<string>, key: Instant, directions: seq<char>, c: char, v: string)
    ensures (c, v) in VideosOf(files, key, directions) <==> c in directions && PickVideo(files, key, c) == Some(v)
  {
    if |directions| > 0 { VideosAre(files, key, directions[1..], c, v); }
  }

  lemma {:induction false} VideosAscend(files: seq<string>, key: Instant, directions: seq<char>)
    requires AscendingChars(directions)
    ensures Ascends(VideosOf(files, key, directions))
  {
    if |directions| > 0 {
      var rest := VideosOf(files, key, directions[1..]);
      VideosAscend(files, key, directions[1..]);
      forall j | 0 <= j < |rest| ensures directions[0] < rest[j].0 {
        VideosAre(files, key, directions[1..], rest[j].0, rest[j].1);
        assert rest[j] == (rest[j].0, rest[j].1) && rest[j] in rest;
      }
    }
  }

  // ---- its thumbnails -----------------------------------------------------------------------------------

  /** The thumbnail of a video: named without the upload flag, or else exactly like the video. */
  ghost predicate IsThumb(files: seq<string>, key: Instant, c: char, v: string, t: string)
  {
    var plain := key.0 + "_" + [key.1, c] + ".thm";
    && t in files
    && (t == plain || (plain !in files && exists stem :: v == stem + ".mp4" && t == stem + ".thm"))
  }

  lemma StemIsFront(v: string, stem: string)
    ensures v == stem + ".mp4" ==> |v| >= 4 && stem == v[..|v| - 4]
  {
  }

  lemma VideoEnds(v: string, key: Instant)
    requires IsVideoOf(v, key)
    ensures |v| >= 4 && v == v[..|v| - 4] + ".mp4"
  {
    StemOf(v, key);
    var flag := v[18..];
    assert flag[|flag| - 4..] == ".mp4";
    assert v[|v| - 4..] == flag[|flag| - 4..];
  }

  lemma ThumbIs(files: seq<string>, key: Instant, c: char, v: string, t: string)
    requires IsVideoOf(v, key) && v[17] == c
    ensures ThumbFor(files, Stem(key, c), v) == Some(t) <==> IsThumb(files, key, c, v, t)
  {
    VideoEnds(v, key);
    forall stem ensures v == stem + ".mp4" ==> stem == v[..|v| - 4] { StemIsFront(v, stem); }
  }

  lemma {:induction false} ThumbsAre(files: seq<string>, key: Instant, videos: seq<(char, string)>, c: char, t: string)
    ensures (c, t) in ThumbsOf(files, key, videos)
      <==> exists v :: (c, v) in videos && ThumbFor(files, Stem(key, c), v) == Some(t)
  {
    if |videos| > 0 {
      ThumbsAre(files, key, videos[1..], c, t);
      if v :| (c, v) in videos && ThumbFor(files, Stem(key, c), v) == Some(t) {
        assert (c, v) == videos[0] || (c, v) in videos[1..];
      }
    }
  }

  lemma {:induction false} ThumbsAscend(files: seq<string>, key: Instant, videos: seq<(char, string)>)
    requires Ascends(videos)
    ensures Ascends(ThumbsOf(files, key, videos))
  {
    if |videos| > 0 {
      var rest := ThumbsOf(files, key, videos[1..]);
      ThumbsAscend(files, key, videos[1..]);
      forall j | 0 <= j < |rest| ensures videos[0].0 < rest[j].0 {
        ThumbsAre(files, key, videos[1..], rest[j].0, rest[j].1);
        assert rest[j] == (rest[j].0, rest[j].1) && rest[j] in rest;
        var v :| (rest[j].0, v) in videos[1..] && ThumbFor(files, Stem(key, rest[j].0), v) == Some(rest[j].1);
        var i :| 0 <= i < |videos[1..]| && videos[1..][i] == (rest[j].0, v);
        assert videos[i + 1] == (rest[j].0, v);
      }
    }
  }

  // ---- a whole entry ------------------------------------------------------------------------------------

  /** What an entry has to hold, given the names in its directory. */
  ghost predicate HoldsFiles(e: Entry, files: seq<string>)
  {
    var key := (e.base, e.kind);
    && (forall c, v :: (c, v) in e.videos <==> IsChosen(files, key, c, v))
    && (forall c, t :: (c, t) in e.thumbs <==> exists v :: IsChosen(files, key, c, v) && IsThumb(files, key, c, v, t))
    && Ascends(e.videos) && Ascends(e.thumbs)
    && (e.hasGps <==> e.base + "_" + [e.kind] + ".gps" in files)
    && (e.hasAccel <==> e.base + "_" + [e.kind] + ".3gf" in files)
  }

  lemma BuiltVideos(relDir: string, key: Instant, files: seq<string>, known: string, c: char, v: string)
    requires IsVideoOf(known, key)
    ensures (c, v) in BuildEntry(relDir, key, files).videos <==> IsChosen(files, key, c, v)
  {
    VideosAre(files, key, SORTED_DIRECTIONS, c, v);
    assert forall d :: d in SORTED_DIRECTIONS <==> d in DIRECTIONS;
    if c in DIRECTIONS { PickIsChosen(files, key, c, known, v); }
  }

  lemma BuiltThumbs(relDir: string, key: Instant, files: seq<string>, known: string, c: char, t: string)
    requires IsVideoOf(known, key)
    ensures (c, t) in BuildEntry(relDir, key, files).thumbs
      <==> exists v :: IsChosen(files, key, c, v) && IsThumb(files, key, c, v, t)
  {
    var videos := BuildEntry(relDir, key, files).videos;
    ThumbsAre(files, key, videos, c, t);
    if v :| (c, v) in videos && ThumbFor(files, Stem(key, c), v) == Some(t) {
      BuiltVideos(relDir, key, files, known, c, v);
      ThumbIs(files, key, c, v, t);
    }
    if v :| IsChosen(files, key, c, v) && IsThumb(files, key, c, v, t) {
      BuiltVideos(relDir, key, files, known, c, v);
      ThumbIs(files, key, c, v, t);
    }
  }

  lemma BuiltHolds(relDir: string, key: Instant, files: seq<string>, known: string)
    requires IsVideoOf(known, key)
    ensures HoldsFiles(BuildEntry(relDir, key, files), files)
  {
    var e := BuildEntry(relDir, key, files);
    forall c, v ensures (c, v) in e.videos <==> IsChosen(files, key, c, v) {
      BuiltVideos(relDir, key, files, known, c, v);
    }
    forall c, t
      ensures (c, t) in e.thumbs <==> exists v :: IsChosen(files, key, c, v) && IsThumb(files, key, c, v, t)
    {
      BuiltThumbs(relDir, key, files, known, c, t);
    }
    VideosAscend(files, key, SORTED_DIRECTIONS);
    ThumbsAscend(files, key, e.videos);
  }

  /** MAIN: what the entries of a directory hold, for any file names in it: one (direction, name)
      pair for every direction with a video, the shortest and then smallest name of those, in
      ascending directions; for each of them its thumbnail if there is one, the one without the
      upload flag first; and whether the position and accelerometer files are there. */
  lemma EntryIsExact(relDir: string, files: seq<string>, e: Entry)
    requires e in EntriesInDir(relDir, files)
    ensures e.relDir == relDir && HoldsFiles(e, files)
    ensures exists v :: v in files && IsVideoOf(v, (e.base, e.kind))
  {
    EntriesAreTheInstants(relDir, files);
    var known :| known in files && IsVideoOf(known, (e.base, e.kind));
    var keys := Instants(files);
    var i :| 0 <= i < |keys| && EntriesInDir(relDir, files)[i] == e;
    assert e == BuildEntry(relDir, keys[i], files) && keys[i] == (e.base, e.kind);
    BuiltHolds(relDir, keys[i], files, known);
  }
}
