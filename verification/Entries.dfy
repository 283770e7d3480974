/** Recording entries of one directory, and the merged newest-first views over directories
    (blackvuesync/server/viewer_index.py). */
module Entries {
  import opened Common
  import opened Recordings

  /** (direction, file name) pairs are sorted by direction. */
  datatype Entry = Entry(
    base: string, kind: char, relDir: string,
    videos: seq<(char, string)>, thumbs: seq<(char, string)>, hasGps: bool, hasAccel: bool)

  type Instant = (string, char)

  predicate IsVideoOf(name: string, key: Instant)
  {
    IsRecordingName(name) && name[..15] == key.0 && name[16] == key.1
  }

  function KeyIn(name: string): Instant
    requires IsRecordingName(name)
  {
    (name[..15], name[16])
  }

  /** The recording instants of a directory, in the order of their first file. */
  function Instants(files: seq<string>): (r: seq<Instant>)
    decreases |files|
    ensures forall i, j :: 0 <= i < j < |r| ==> r[i] != r[j]
  {
    if |files| == 0 then []
    else
      var n := |files| - 1;
      var earlier := Instants(files[..n]);
      if IsRecordingName(files[n]) && KeyIn(files[n]) !in earlier then earlier + [KeyIn(files[n])] else earlier
  }

  lemma {:induction false} InstantsExact(files: seq<string>, k: Instant)
    ensures k in Instants(files) <==> exists n :: n in files && IsVideoOf(n, k)
    decreases |files|
  {
    if |files| > 0 {
      var last := files[|files| - 1];
      var rest := files[..|files| - 1];
      assert files == rest + [last];
      InstantsExact(rest, k);
      if IsVideoOf(last, k) {
        assert k == KeyIn(last);
      }
      if n :| n in files && IsVideoOf(n, k) {
        assert n in rest || n == last;
      }
    }
  }

  /** The directions in sorted order, as in sorted(slot.videos). */
  const SORTED_DIRECTIONS := ['F', 'I', 'O', 'R']

  function Stem(key: Instant, direction: char): string { key.0 + "_" + [key.1, direction] }

  /** The preferred video of a direction: the unflagged (shortest) name, then L, then S. */
  function PickVideo(files: seq<string>, key: Instant, direction: char): Option<string>
  {
    var stem := Stem(key, direction);
    if stem + ".mp4" in files then Some(stem + ".mp4")
    else if stem + "L.mp4" in files then Some(stem + "L.mp4")
    else if stem + "S.mp4" in files then Some(stem + "S.mp4")
    else None
  }

  function VideosOf(files: seq<string>, key: Instant, directions: seq<char>): seq<(char, string)>
  {
    if |directions| == 0 then []
    else
      (match PickVideo(files, key, directions[0])
       case Some(v) => [(directions[0], v)]
       case None => []) + VideosOf(files, key, directions[1..])
  }

  function ThumbFor(files: seq<string>, plainStem: string, video: string): Option<string>
  {
    if plainStem + ".thm" in files then Some(plainStem + ".thm")
    else if |video| >= 4 && video[..|video| - 4] + ".thm" in files then Some(video[..|video| - 4] + ".thm")
    else None
  }

  function ThumbsOf(files: seq<string>, key: Instant, videos: seq<(char, string)>): seq<(char, string)>
  {
    if |videos| == 0 then []
    else
      (match ThumbFor(files, Stem(key, videos[0].0), videos[0].1)
       case Some(t) => [(videos[0].0, t)]
       case None => []) + ThumbsOf(files, key, videos[1..])
  }

  function BuildEntry(relDir: string, key: Instant, files: seq<string>): Entry
  {
    var videos := VideosOf(files, key, SORTED_DIRECTIONS);
    Entry(key.0, key.1, relDir, videos, ThumbsOf(files, key, videos),
          key.0 + "_" + [key.1] + ".gps" in files, key.0 + "_" + [key.1] + ".3gf" in files)
  }

  function BuildAll(relDir: string, keys: seq<Instant>, files: seq<string>): (r: seq<Entry>)
    ensures |r| == |keys| && forall i :: 0 <= i < |r| ==> r[i] == BuildEntry(relDir, keys[i], files)
  {
    seq(|keys|, i requires 0 <= i < |keys| => BuildEntry(relDir, keys[i], files))
  }

  /** _entries_in_dir */
  function EntriesInDir(relDir: string, files: seq<string>): seq<Entry>
  {
    BuildAll(relDir, Instants(files), files)
  }

  /** One entry per recording instant with a video in the directory, and no other. */
  lemma EntriesAreTheInstants(relDir: string, files: seq<string>)
    ensures var es := EntriesInDir(relDir, files);
      && (forall e :: e in es ==>
            e.relDir == relDir && IsBase(e.base) && exists n :: n in files && IsVideoOf(n, (e.base, e.kind)))
      && (forall n :: n in files && IsRecordingName(n) ==> exists e :: e in es && (e.base, e.kind) == KeyIn(n))
      && (forall i, j :: 0 <= i < j < |es| ==> (es[i].base, es[i].kind) != (es[j].base, es[j].kind))
  {
    var keys := Instants(files);
    var es := EntriesInDir(relDir, files);
    forall n | n in files && IsRecordingName(n) ensures exists e :: e in es && (e.base, e.kind) == KeyIn(n) {
      assert IsVideoOf(n, KeyIn(n));
      InstantsExact(files, KeyIn(n));
      var i :| 0 <= i < |keys| && keys[i] == KeyIn(n);
      assert es[i] in es;
    }
    forall e | e in es
      ensures e.relDir == relDir && IsBase(e.base) && exists n :: n in files && IsVideoOf(n, (e.base, e.kind))
    {
      var i :| 0 <= i < |es| && es[i] == e;
      assert keys[i] in keys && (e.base, e.kind) == keys[i];
      InstantsExact(files, keys[i]);
    }
  }

  // ---- the order ---------------------------------------------------------------------------------

  /** Python's order on strings. */
  predicate LexLess(a: string, b: string)
  {
    |b| > 0 && (|a| == 0 || a[0] < b[0] || (a[0] == b[0] && LexLess(a[1..], b[1..])))
  }

  lemma {:induction false} LexTotal(a: string, b: string)
    ensures a == b || LexLess(a, b) || LexLess(b, a)
    ensures !(LexLess(a, b) && LexLess(b, a))
    ensures !LexLess(a, a)
  {
    if |a| > 0 && |b| > 0 {
      LexTotal(a[1..], b[1..]);
      LexTotal(a[1..], a[1..]);
      assert a == [a[0]] + a[1..] && b == [b[0]] + b[1..];
    } else if |a| > 0 {
      LexTotal(a[1..], a[1..]);
    }
  }

  lemma {:induction false} LexTransitive(a: string, b: string, c: string)
    requires LexLess(a, b) && LexLess(b, c)
    ensures LexLess(a, c)
  {
    if |a| > 0 && a[0] == b[0] && b[0] == c[0] {
      LexTransitive(a[1..], b[1..], c[1..]);
    }
  }

  /** Recording time as a number; the day is its leading part. */
  function TimeOf(base: string): nat
    requires IsBase(base)
  {
    DateOf(base) * 1000000 + Number(base[9..])
  }

  lemma NumberBound(s: string)
    requires Digits(s) && |s| == 6
    ensures Number(s) < 1000000
  {
    NumberLess(s);
    assert Power10(6) == 1000000;
  }

  function Power10(n: nat): nat { if n == 0 then 1 else 10 * Power10(n - 1) }

  lemma {:induction false} NumberLess(s: string)
    requires Digits(s)
    ensures Number(s) < Power10(|s|)
    decreases |s|
  {
    if |s| > 0 { NumberLess(s[..|s| - 1]); }
  }

  datatype Key = Key(time: nat, base: string, relDir: string)

  function Time0(base: string): nat { if IsBase(base) then TimeOf(base) else 0 }

  function KeyOf(e: Entry): Key { Key(Time0(e.base), e.base, e.relDir) }

  predicate KeyLess(a: Key, b: Key)
  {
    || a.time < b.time
    || (a.time == b.time && (LexLess(a.base, b.base) || (a.base == b.base && LexLess(a.relDir, b.relDir))))
  }

  lemma KeyOrder(a: Key, b: Key)
    ensures a == b || KeyLess(a, b) || KeyLess(b, a)
    ensures !(KeyLess(a, b) && KeyLess(b, a))
    ensures !KeyLess(a, a)
  {
    LexTotal(a.base, b.base);
    LexTotal(a.relDir, b.relDir);
  }

  lemma KeyTransitive(a: Key, b: Key, c: Key)
    requires KeyLess(a, b) && KeyLess(b, c)
    ensures KeyLess(a, c)
  {
    if a.time == b.time == c.time {
      if LexLess(a.base, b.base) && LexLess(b.base, c.base) {
        LexTransitive(a.base, b.base, c.base);
      } else if a.base == b.base == c.base {
        LexTransitive(a.relDir, b.relDir, c.relDir);
      }
    }
  }

  ghost predicate NewestFirst(s: seq<Entry>)
  {
    forall i, j :: 0 <= i < j < |s| ==> !KeyLess(KeyOf(s[i]), KeyOf(s[j]))
  }

  /** The entries with one key, in their order. */
  function WithKey(s: seq<Entry>, k: Key): seq<Entry>
  {
    if |s| == 0 then []
    else if KeyOf(s[0]) == k then [s[0]] + WithKey(s[1..], k)
    else WithKey(s[1..], k)
  }

  lemma {:induction false} WithKeyAppend(a: seq<Entry>, b: seq<Entry>, k: Key)
    ensures WithKey(a + b, k) == WithKey(a, k) + WithKey(b, k)
  {
    if |a| == 0 {
      assert a + b == b;
    } else {
      assert (a + b)[1..] == a[1..] + b && (a + b)[0] == a[0];
      WithKeyAppend(a[1..], b, k);
    }
  }

  lemma {:induction false} WithKeyMember(s: seq<Entry>, k: Key)
    ensures |WithKey(s, k)| > 0 <==> exists i :: 0 <= i < |s| && KeyOf(s[i]) == k
  {
    if |s| > 0 {
      WithKeyMember(s[1..], k);
      if |WithKey(s, k)| > 0 && KeyOf(s[0]) != k {
        var i :| 0 <= i < |s[1..]| && KeyOf(s[1..][i]) == k;
        assert KeyOf(s[i + 1]) == k;
      }
      if i :| 0 <= i < |s| && KeyOf(s[i]) == k {
        if i > 0 { assert KeyOf(s[1..][i - 1]) == k; }
      }
    }
  }

  /** Two newest-first sequences with the same entries under each key, in the same order, are
      the same: sorting by key leaves no choice. */
  lemma {:induction false} NewestFirstUnique(a: seq<Entry>, b: seq<Entry>)
    requires NewestFirst(a) && NewestFirst(b)
    requires forall k :: WithKey(a, k) == WithKey(b, k)
    ensures a == b
    decreases |a|
  {
    if |a| == 0 {
      assert |b| > 0 ==> |WithKey(b, KeyOf(b[0]))| > 0;
    } else {
      var k := KeyOf(a[0]);
      assert |WithKey(a, k)| > 0;
      HeadsAgree(a, b);
      assert WithKey(a, k)[0] == a[0] && WithKey(b, k)[0] == b[0];
      forall k' ensures WithKey(a[1..], k') == WithKey(b[1..], k') {
        assert WithKey(a, k') == WithKey(b, k');
        if k' == k {
          assert WithKey(a, k)[1..] == WithKey(a[1..], k) && WithKey(b, k)[1..] == WithKey(b[1..], k);
        }
      }
      NewestFirstUnique(a[1..], b[1..]);
      assert a == [a[0]] + a[1..] && b == [b[0]] + b[1..];
    }
  }

  lemma HeadsAgree(a: seq<Entry>, b: seq<Entry>)
    requires NewestFirst(a) && NewestFirst(b) && |a| > 0
    requires forall k :: WithKey(a, k) == WithKey(b, k)
    ensures |b| > 0 && KeyOf(b[0]) == KeyOf(a[0])
  {
    var k := KeyOf(a[0]);
    assert |WithKey(a, k)| > 0;
    WithKeyMember(b, k);
    var j :| 0 <= j < |b| && KeyOf(b[j]) == k;
    var k' := KeyOf(b[0]);
    assert |WithKey(b, k')| > 0;
    WithKeyMember(a, k');
    var i :| 0 <= i < |a| && KeyOf(a[i]) == k';
    KeyOrder(k, k');
  }

  function Insert(e: Entry, s: seq<Entry>): seq<Entry>
  {
    if |s| > 0 && KeyLess(KeyOf(e), KeyOf(s[0])) then [s[0]] + Insert(e, s[1..]) else [e] + s
  }

  /** _sort_newest_first: a stable sort by descending key. */
  function Sorted(s: seq<Entry>): seq<Entry>
  {
    if |s| == 0 then [] else Insert(s[0], Sorted(s[1..]))
  }

  lemma {:induction false} InsertKeepsKeys(e: Entry, s: seq<Entry>, k: Key)
    ensures WithKey(Insert(e, s), k) == WithKey([e] + s, k)
  {
    assert ([e] + s)[1..] == s;
    if |s| > 0 && KeyLess(KeyOf(e), KeyOf(s[0])) {
      InsertKeepsKeys(e, s[1..], k);
      KeyOrder(KeyOf(e), KeyOf(s[0]));
      assert ([e] + s[1..])[1..] == s[1..];
      assert ([s[0]] + Insert(e, s[1..]))[1..] == Insert(e, s[1..]);
    }
  }

  lemma {:induction false} InsertKeepsOrder(e: Entry, s: seq<Entry>)
    requires NewestFirst(s)
    ensures NewestFirst(Insert(e, s))
    ensures forall x :: x in Insert(e, s) <==> x == e || x in s
  {
    if |s| > 0 && KeyLess(KeyOf(e), KeyOf(s[0])) {
      InsertKeepsOrder(e, s[1..]);
      var rest := Insert(e, s[1..]);
      forall j | 0 <= j < |rest| ensures !KeyLess(KeyOf(s[0]), KeyOf(rest[j])) {
        assert rest[j] in rest;
        KeyOrder(KeyOf(e), KeyOf(s[0]));
        if rest[j] != e {
          var i :| 0 <= i < |s[1..]| && s[1..][i] == rest[j];
          assert s[i + 1] == rest[j];
        }
      }
    } else {
      forall j | 0 <= j < |s| ensures !KeyLess(KeyOf(e), KeyOf(s[j])) {
        if KeyLess(KeyOf(e), KeyOf(s[j])) {
          assert j > 0;
          assert !KeyLess(KeyOf(s[0]), KeyOf(s[j]));
          KeyOrder(KeyOf(s[0]), KeyOf(s[j]));
          if KeyLess(KeyOf(s[j]), KeyOf(s[0])) {
            KeyTransitive(KeyOf(e), KeyOf(s[j]), KeyOf(s[0]));
          }
        }
      }
    }
  }

  lemma {:induction false} SortedIsStable(s: seq<Entry>)
    ensures NewestFirst(Sorted(s))
    ensures forall k :: WithKey(Sorted(s), k) == WithKey(s, k)
    ensures forall e :: e in Sorted(s) <==> e in s
  {
    if |s| > 0 {
      SortedIsStable(s[1..]);
      InsertKeepsOrder(s[0], Sorted(s[1..]));
      forall k ensures WithKey(Sorted(s), k) == WithKey(s, k) {
        InsertKeepsKeys(s[0], Sorted(s[1..]), k);
        assert ([s[0]] + Sorted(s[1..]))[1..] == Sorted(s[1..]);
      }
    }
  }

  // ---- the answer to a lookup ----------------------------------------------------------------

  /** What the walk of some directories must answer: the newest-first merge of their entries.
      No order of the directories is involved. */
  ghost predicate IsAnswer(view: seq<Entry>, found: map<string, seq<Entry>>)
  {
    && NewestFirst(view)
    && forall k :: WithKey(view, k) == if k.relDir in found then WithKey(found[k.relDir], k) else []
  }

  /** There is one answer, so any two ways to find it agree entry by entry. */
  lemma AnswerUnique(a: seq<Entry>, b: seq<Entry>, found: map<string, seq<Entry>>)
    requires IsAnswer(a, found) && IsAnswer(b, found)
    ensures a == b
  {
    NewestFirstUnique(a, b);
  }

  function Concat(found: map<string, seq<Entry>>, order: seq<string>): seq<Entry>
    requires forall d :: d in order ==> d in found
  {
    if |order| == 0 then [] else found[order[0]] + Concat(found, order[1..])
  }

  ghost predicate Owned(found: map<string, seq<Entry>>)
  {
    forall d, e :: d in found && e in found[d] ==> e.relDir == d
  }

  lemma {:induction false} OtherDirHasNone(es: seq<Entry>, k: Key)
    requires forall e :: e in es ==> e.relDir != k.relDir
    ensures WithKey(es, k) == []
  {
    if |es| > 0 {
      assert es[0] in es;
      OtherDirHasNone(es[1..], k);
    }
  }

  lemma {:induction false} ConcatByKey(found: map<string, seq<Entry>>, order: seq<string>, k: Key)
    requires Owned(found) && (forall d :: d in order ==> d in found)
    requires forall i, j :: 0 <= i < j < |order| ==> order[i] != order[j]
    ensures WithKey(Concat(found, order), k) == if k.relDir in order then WithKey(found[k.relDir], k) else []
  {
    if |order| > 0 {
      WithKeyAppend(found[order[0]], Concat(found, order[1..]), k);
      ConcatByKey(found, order[1..], k);
      if order[0] != k.relDir {
        OtherDirHasNone(found[order[0]], k);
      }
    }
  }

  /** MAIN: concatenating the directories in any order and sorting gives the answer. */
  lemma SortedConcatIsAnswer(found: map<string, seq<Entry>>, order: seq<string>)
    requires Owned(found)
    requires forall d :: d in found <==> d in order
    requires forall i, j :: 0 <= i < j < |order| ==> order[i] != order[j]
    ensures IsAnswer(Sorted(Concat(found, order)), found)
  {
    SortedIsStable(Concat(found, order));
    forall k
      ensures WithKey(Sorted(Concat(found, order)), k) == if k.relDir in found then WithKey(found[k.relDir], k) else []
    {
      ConcatByKey(found, order, k);
    }
  }
}
