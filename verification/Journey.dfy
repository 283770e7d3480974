/** The auto-advance chain of the viewer (journey_chain in blackvuesync/server/viewer_index.py).
    Recording times are seconds on a common clock. */
module Journey {
  import opened Entries

  /** An entry of the index with its recording time. */
  datatype Segment = Segment(entry: Entry, at: int)

  const CONTIGUOUS_GAP := 120

  predicate Contiguous(a: Segment, b: Segment) { 0 < b.at - a.at <= CONTIGUOUS_GAP }

  /** Base names are times written out, so equal names mean equal times and conversely; the
      same recording may still be present in several directories. */
  ghost predicate NamedByTime(s: seq<Segment>)
  {
    forall a, b :: a in s && b in s ==> (a.entry.base == b.entry.base <==> a.at == b.at)
  }

  function OfKind(s: seq<Segment>, kind: char): (r: seq<Segment>)
    ensures forall x :: x in r <==> x in s && x.entry.kind == kind
  {
    if |s| == 0 then []
    else if s[0].entry.kind == kind then [s[0]] + OfKind(s[1..], kind)
    else OfKind(s[1..], kind)
  }

  predicate ByTime(s: seq<Segment>) { forall i, j :: 0 <= i < j < |s| ==> s[i].at <= s[j].at }

  function Insert(x: Segment, s: seq<Segment>): seq<Segment>
  {
    if |s| > 0 && s[0].at < x.at then [s[0]] + Insert(x, s[1..]) else [x] + s
  }

  /** sorted(..., key=datetime): stable and ascending. */
  function SortedByTime(s: seq<Segment>): seq<Segment>
  {
    if |s| == 0 then [] else Insert(s[0], SortedByTime(s[1..]))
  }

  lemma {:induction false} InsertAdds(x: Segment, s: seq<Segment>)
    ensures multiset(Insert(x, s)) == multiset(s) + multiset{x}
  {
    if |s| > 0 && s[0].at < x.at {
      InsertAdds(x, s[1..]);
      assert s == [s[0]] + s[1..];
    }
  }

  predicate NoneBefore(s: seq<Segment>, low: int) { forall j :: 0 <= j < |s| ==> low <= s[j].at }

  lemma {:induction false} InsertKeepsOrder(x: Segment, s: seq<Segment>)
    requires ByTime(s)
    ensures ByTime(Insert(x, s))
    ensures forall low: int :: low <= x.at && NoneBefore(s, low) ==> NoneBefore(Insert(x, s), low)
  {
    if |s| > 0 && s[0].at < x.at {
      InsertKeepsOrder(x, s[1..]);
      assert NoneBefore(s[1..], s[0].at);
      assert NoneBefore(Insert(x, s[1..]), s[0].at);
    }
  }

  lemma {:induction false} SortedIsByTime(s: seq<Segment>)
    ensures ByTime(SortedByTime(s)) && multiset(SortedByTime(s)) == multiset(s)
  {
    if |s| > 0 {
      SortedIsByTime(s[1..]);
      InsertKeepsOrder(s[0], SortedByTime(s[1..]));
      InsertAdds(s[0], SortedByTime(s[1..]));
      assert s == [s[0]] + s[1..];
    }
  }

  predicate FirstNamed(s: seq<Segment>, base: string, i: nat)
  {
    i < |s| && s[i].entry.base == base && forall j :: 0 <= j < i ==> s[j].entry.base != base
  }

  predicate Link(s: seq<Segment>, k: nat) { k + 1 < |s| && Contiguous(s[k], s[k + 1]) }

  /** The maximal contiguous stretch from the first segment of a name: s[i..n]. */
  ghost predicate IsStretch(s: seq<Segment>, i: nat, n: nat)
  {
    && i < n <= |s|
    && (forall k :: i <= k < n - 1 ==> Link(s, k))
    && !Link(s, n - 1)
  }

  ghost predicate IsChain(s: seq<Segment>, base: string, chain: seq<Segment>)
  {
    if exists i: nat :: FirstNamed(s, base, i) then
      exists i: nat, n: nat :: FirstNamed(s, base, i) && IsStretch(s, i, n) && chain == s[i..n]
    else chain == []
  }

  method JourneyChain(entries: seq<Segment>, base: string, kind: char) returns (chain: seq<Segment>)
    ensures IsChain(SortedByTime(OfKind(entries, kind)), base, chain)
  {
    var sameKind := SortedByTime(OfKind(entries, kind));
    chain := [];
    var started := false;
    ghost var first: nat := 0;
    var i := 0;
    while i < |sameKind|
      invariant 0 <= i <= |sameKind|
      invariant !started ==> chain == [] && forall j :: 0 <= j < i ==> sameKind[j].entry.base != base
      invariant started ==> FirstNamed(sameKind, base, first) && first < i && chain == sameKind[first..i]
      invariant started ==> forall k :: first <= k < i - 1 ==> Link(sameKind, k)
    {
      var segment := sameKind[i];
      if !started {
        if segment.entry.base == base {
          started, chain, first := true, [segment], i;
        }
      } else {
        var prev := chain[|chain| - 1];
        var gap := segment.at - prev.at;
        if 0 < gap <= CONTIGUOUS_GAP {
          chain := chain + [segment];
        } else {
          assert IsStretch(sameKind, first, i);
          return;
        }
      }
      i := i + 1;
    }
    if started {
      assert IsStretch(sameKind, first, i);
    }
  }

  lemma StretchUnique(s: seq<Segment>, i: nat, n: nat, m: nat)
    requires IsStretch(s, i, n) && IsStretch(s, i, m)
    ensures n == m
  {
    assert !Link(s, n - 1) && !Link(s, m - 1);
  }

  lemma FirstUnique(s: seq<Segment>, base: string, i: nat, j: nat)
    requires FirstNamed(s, base, i) && FirstNamed(s, base, j)
    ensures i == j
  {
  }

  /** There is only one chain for a name. */
  lemma ChainUnique(s: seq<Segment>, base: string, a: seq<Segment>, b: seq<Segment>)
    requires IsChain(s, base, a) && IsChain(s, base, b)
    ensures a == b
  {
    if exists i: nat :: FirstNamed(s, base, i) {
      var i: nat, n: nat :| FirstNamed(s, base, i) && IsStretch(s, i, n) && a == s[i..n];
      var j: nat, m: nat :| FirstNamed(s, base, j) && IsStretch(s, j, m) && b == s[j..m];
      FirstUnique(s, base, i, j);
      StretchUnique(s, i, n, m);
    }
  }

  /** In a stretch no later segment shares its name with an earlier one of the whole list. */
  lemma FirstInStretch(s: seq<Segment>, i: nat, n: nat, k: nat)
    requires ByTime(s) && NamedByTime(s) && IsStretch(s, i, n) && i < k < n
    ensures FirstNamed(s, s[k].entry.base, k) && IsStretch(s, k, n)
  {
    assert Link(s, k - 1);
    forall j | 0 <= j < k ensures s[j].entry.base != s[k].entry.base {
      assert s[j].at <= s[k - 1].at;
      assert s[j] in s && s[k] in s;
    }
  }

  /** MAIN: starting from any member of a chain gives exactly the rest of that chain, also when
      recordings are present several times. */
  lemma ChainFromMember(entries: seq<Segment>, kind: char, base: string, chain: seq<Segment>, k: nat,
      rest: seq<Segment>)
    requires NamedByTime(entries)
    requires IsChain(SortedByTime(OfKind(entries, kind)), base, chain) && k < |chain|
    requires IsChain(SortedByTime(OfKind(entries, kind)), chain[k].entry.base, rest)
    ensures rest == chain[k..]
  {
    SortedIsByTime(OfKind(entries, kind));
    SortedNamedByTime(entries, kind);
    MemberIsFirst(SortedByTime(OfKind(entries, kind)), base, chain, k);
    ChainUnique(SortedByTime(OfKind(entries, kind)), chain[k].entry.base, rest, chain[k..]);
  }

  lemma MemberIsFirst(s: seq<Segment>, base: string, chain: seq<Segment>, k: nat)
    requires ByTime(s) && NamedByTime(s) && IsChain(s, base, chain) && k < |chain|
    ensures IsChain(s, chain[k].entry.base, chain[k..])
  {
    var i: nat, n: nat :| FirstNamed(s, base, i) && IsStretch(s, i, n) && chain == s[i..n];
    RestOfPart(s, i, n, k);
    RestIsChain(s, base, i, n, k);
  }

  lemma RestOfPart(s: seq<Segment>, i: nat, n: nat, k: nat)
    requires i + k < n <= |s|
    ensures s[i..n][k] == s[i + k] && s[i..n][k..] == s[i + k..n]
  {
  }

  lemma RestIsChain(s: seq<Segment>, base: string, i: nat, n: nat, k: nat)
    requires ByTime(s) && NamedByTime(s) && FirstNamed(s, base, i) && IsStretch(s, i, n) && i + k < n
    ensures IsChain(s, s[i + k].entry.base, s[i + k..n])
  {
    if k > 0 { FirstInStretch(s, i, n, i + k); }
    assert FirstNamed(s, s[i + k].entry.base, i + k) && IsStretch(s, i + k, n);
  }

  lemma SortedNamedByTime(entries: seq<Segment>, kind: char)
    requires NamedByTime(entries)
    ensures NamedByTime(SortedByTime(OfKind(entries, kind)))
  {
    var same := OfKind(entries, kind);
    var s := SortedByTime(same);
    SortedIsByTime(same);
    forall x | x in s ensures x in entries { assert x in multiset(s); assert x in same; }
  }
}
