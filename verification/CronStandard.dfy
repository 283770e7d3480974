/** The reference reading of a cron field, as the crontab format writes it down (IEEE Std 1003.1,
    crontab, INPUT FILES, with names and steps as in Vixie cron): what a text may be put together
    from and what it means then. It splits and parses nothing; the code's parser is proved to
    accept the same texts and to read them the same way. */
module CronStandard {
  import opened Common
  import opened Recordings
  import opened CronText

  /** A text of digits. */
  predicate IsNumeral(t: string) { |t| > 0 && forall i :: 0 <= i < |t| ==> '0' <= t[i] <= '9' }

  /** A value of the field: its number, or the first name spelled like this. */
  ghost predicate IsValue(t: string, spec: FieldSpec, n: nat)
  {
    && spec.lo <= n <= spec.hi
    && if IsNumeral(t) then n == Number(t)
       else exists i :: IsName(t, spec, i) && n == spec.first + i
  }

  /** A name is of small letters and digits. */
  ghost predicate IsName(t: string, spec: FieldSpec, i: nat)
  {
    && |t| > 0 && (forall k :: 0 <= k < |t| ==> 'a' <= t[k] <= 'z' || '0' <= t[k] <= '9')
    && i < |spec.names| && spec.names[i] == t && forall j :: 0 <= j < i ==> spec.names[j] != t
  }

  /** a-z */
  ghost predicate IsRange(b: string, spec: FieldSpec, first: nat, last: nat)
  {
    exists a, z :: b == a + "-" + z && IsValue(a, spec, first) && IsValue(z, spec, last) && first <= last
  }

  /** A star, a range, or a value, which runs to the end of the field if a step follows. */
  ghost predicate BaseMeans(b: string, stepped: bool, spec: FieldSpec, first: nat, last: nat)
  {
    || (b == "*" && first == spec.lo && last == spec.hi)
    || IsRange(b, spec, first, last)
    || (IsValue(b, spec, first) && last == if stepped then spec.hi else first)
  }

  /** base/step */
  ghost predicate IsSteppedBase(item: string, spec: FieldSpec, s: Steps)
  {
    exists b, n :: item == b + "/" + n && IsNumeral(n) && s.step == Number(n) >= 1
      && BaseMeans(b, true, spec, s.first, s.last)
  }

  ghost predicate ItemMeans(item: string, spec: FieldSpec, s: Steps)
  {
    IsSteppedBase(item, spec, s) || (s.step == 1 && BaseMeans(item, false, spec, s.first, s.last))
  }

  /** The items with commas between them. */
  ghost predicate IsList(text: string, items: seq<string>)
  {
    |items| > 0 && (forall p :: p in items ==> ',' !in p) && text == Join(items, ',')
  }

  /** The same text in small letters. */
  ghost predicate IsLowered(text: string, lower: string)
  {
    |lower| == |text| && forall i :: 0 <= i < |text| ==>
      lower[i] as int == text[i] as int + if 'A' <= text[i] <= 'Z' then 32 else 0
  }

  lemma LoweredIs(text: string, lower: string)
    ensures IsLowered(text, lower) <==> lower == LowerAll(text)
  {
    if IsLowered(text, lower) {
      forall i | 0 <= i < |text| ensures lower[i] == LowerAll(text)[i] {
        assert lower[i] as int == Lower(text[i]) as int;
      }
    }
  }

  ghost predicate HasMeaning(item: string, spec: FieldSpec) { exists s :: ItemMeans(item, spec, s) }

  /** Case does not matter; every item of the list has a meaning. */
  ghost predicate IsField(text: string, spec: FieldSpec)
  {
    exists lower, items ::
      IsLowered(text, lower) && IsList(lower, items) && forall item :: item in items ==> HasMeaning(item, spec)
  }

  /** The first value, and every one that whole steps from it reach, up to the last. */
  ghost predicate Reaches(s: Steps, v: int)
  {
    v <= s.last && exists k: nat :: v == s.first + Walk(k, s.step)
  }

  /** k steps. */
  function Walk(k: nat, step: nat): nat { k * step }

  /** The value is one of those that some item stands for. */
  ghost predicate IsMatch(text: string, spec: FieldSpec, v: int)
  {
    exists lower, items, item, s ::
      IsLowered(text, lower) && IsList(lower, items) && item in items && ItemMeans(item, spec, s) && Reaches(s, v)
  }

  // ---- the code's parser reads it so -----------------------------------------------------------------

  lemma {:induction false} PartsJoin(s: string, sep: char)
    ensures Join(SplitOn(s, sep), sep) == s && forall p :: p in SplitOn(s, sep) ==> sep !in p
    decreases |s|
  {
    if sep !in s {
      SplitNone(s, sep);
    } else {
      var i := FirstSeparator(s, sep);
      SplitAt(s[..i], sep, s[i + 1..]);
      PartsJoin(s[i + 1..], sep);
      assert SplitOn(s, sep)[1..] == SplitOn(s[i + 1..], sep);
    }
  }

  lemma OneOrTwoParts(s: string, sep: char)
    ensures |SplitOn(s, sep)| == 1 ==> SplitOn(s, sep) == [s]
    ensures |SplitOn(s, sep)| == 2 ==> s == SplitOn(s, sep)[0] + [sep] + SplitOn(s, sep)[1]
  {
    PartsJoin(s, sep);
    var parts := SplitOn(s, sep);
    if |parts| == 2 { assert parts[1..] == [parts[1]]; }
  }

  lemma TwoParts(a: string, sep: char, b: string)
    requires sep !in a && sep !in b
    ensures SplitOn(a + [sep] + b, sep) == [a, b]
  {
    SplitAt(a, sep, b);
    SplitNone(b, sep);
  }

  lemma {:induction false} IndexIsFirst(names: seq<string>, t: string)
    requires t in names
    ensures forall j :: 0 <= j < IndexOf(names, t) ==> names[j] != t
  {
    if names[0] != t {
      IndexIsFirst(names[1..], t);
      forall j | 0 <= j < IndexOf(names, t) ensures names[j] != t {
        if j > 0 { assert names[j] == names[1..][j - 1]; }
      }
    }
  }

  lemma ValueIsRead(t: string, spec: FieldSpec, n: nat)
    ensures IsToken(t) && CronValue(t, spec) == Some(n) <==> IsValue(t, spec, n)
  {
    if t in spec.names && IsToken(t) {
      IndexIsFirst(spec.names, t);
      assert IsName(t, spec, IndexOf(spec.names, t));
    }
  }

  lemma TokenHasNone(t: string, c: char)
    requires IsToken(t) && (c == '-' || c == '/' || c == '*')
    ensures c !in t
  {
  }

  lemma RangeIsRead(b: string, stepped: bool, step: nat, spec: FieldSpec, first: nat, last: nat)
    requires IsRange(b, spec, first, last)
    ensures ReadBase(b, stepped, step, spec) == Some(Steps(first, last, step)) && '/' !in b
  {
    var a, z :| b == a + "-" + z && IsValue(a, spec, first) && IsValue(z, spec, last) && first <= last;
    TokenHasNone(a, '-');
    TokenHasNone(z, '-');
    TokenHasNone(a, '/');
    TokenHasNone(z, '/');
    TwoParts(a, '-', z);
    ValueIsRead(a, spec, first);
    ValueIsRead(z, spec, last);
    assert |b| > 1;
  }

  lemma BaseIsRead(b: string, stepped: bool, step: nat, spec: FieldSpec, first: nat, last: nat)
    requires BaseMeans(b, stepped, spec, first, last)
    ensures ReadBase(b, stepped, step, spec) == Some(Steps(first, last, step)) && '/' !in b
  {
    if IsRange(b, spec, first, last) {
      RangeIsRead(b, stepped, step, spec, first, last);
    } else if b != "*" {
      TokenHasNone(b, '-');
      TokenHasNone(b, '/');
      SplitNone(b, '-');
      ValueIsRead(b, spec, first);
    }
  }

  lemma ReadBaseMeans(b: string, stepped: bool, step: nat, spec: FieldSpec)
    requires ReadBase(b, stepped, step, spec).Some?
    ensures var s := ReadBase(b, stepped, step, spec).value;
      s.step == step && BaseMeans(b, stepped, spec, s.first, s.last)
  {
    if b != "*" {
      var s, ends := ReadBase(b, stepped, step, spec).value, SplitOn(b, '-');
      OneOrTwoParts(b, '-');
      ValueIsRead(ends[0], spec, s.first);
      if |ends| == 2 {
        ValueIsRead(ends[1], spec, s.last);
        assert IsRange(b, spec, s.first, s.last);
      }
    }
  }

  /** The parser accepts exactly the items of the format, with exactly their meaning. */
  lemma ItemIsRead(item: string, spec: FieldSpec, s: Steps)
    ensures ReadItem(item, spec) == Some(s) <==> ItemMeans(item, spec, s)
  {
    if ReadItem(item, spec) == Some(s) {
      var parts := SplitOn(item, '/');
      OneOrTwoParts(item, '/');
      ReadBaseMeans(parts[0], |parts| == 2, s.step, spec);
      if |parts| == 2 { assert item == parts[0] + "/" + parts[1] && IsSteppedBase(item, spec, s); }
    }
    if IsSteppedBase(item, spec, s) {
      var b, n :| item == b + "/" + n && IsNumeral(n) && s.step == Number(n) >= 1
        && BaseMeans(b, true, spec, s.first, s.last);
      BaseIsRead(b, true, s.step, spec, s.first, s.last);
      assert '/' !in n;
      TwoParts(b, '/', n);
    } else if ItemMeans(item, spec, s) {
      BaseIsRead(item, false, 1, spec, s.first, s.last);
      SplitNone(item, '/');
    }
  }

  lemma ListIsRead(text: string, items: seq<string>)
    ensures IsList(text, items) <==> items == SplitOn(text, ',')
  {
    PartsJoin(text, ',');
    if IsList(text, items) { SplitJoin(items, ','); }
  }

  lemma ItemHasMeaning(item: string, spec: FieldSpec)
    ensures HasMeaning(item, spec) <==> ReadItem(item, spec).Some?
  {
    if ReadItem(item, spec).Some? { ItemIsRead(item, spec, ReadItem(item, spec).value); }
    if s :| ItemMeans(item, spec, s) { ItemIsRead(item, spec, s); }
  }

  /** MAIN: the code's parser accepts exactly the fields of the crontab format. */
  lemma FieldIsRead(text: string, spec: FieldSpec)
    ensures ValidField(text, spec) <==> IsField(text, spec)
  {
    var parts := SplitOn(LowerAll(text), ',');
    ListIsRead(LowerAll(text), parts);
    forall item | item in parts ensures HasMeaning(item, spec) <==> ReadItem(item, spec).Some? {
      ItemHasMeaning(item, spec);
    }
    LoweredIs(text, LowerAll(text));
    if lower, items :|
      IsLowered(text, lower) && IsList(lower, items) && forall item :: item in items ==> HasMeaning(item, spec)
    {
      LoweredIs(text, lower);
      ListIsRead(lower, items);
    }
  }

  lemma MultipleLeavesNothing(n: int, q: int, step: int)
    requires step > 0 && n == q * step
    ensures n % step == 0
  {
    var d := q - n / step;
    assert n % step == d * step;
    assert d >= 1 ==> (d - 1) * step >= 0;
    assert d <= -1 ==> (-d - 1) * step >= 0;
  }

  lemma StepsAreReached(s: Steps, v: int)
    requires s.step > 0
    ensures InSteps(s, v) <==> Reaches(s, v)
  {
    if InSteps(s, v) {
      var k := (v - s.first) / s.step;
      assert v == s.first + Walk(k, s.step);
    }
    if Reaches(s, v) {
      var k: nat :| v == s.first + Walk(k, s.step);
      MultipleLeavesNothing(v - s.first, k, s.step);
    }
  }

  /** MAIN: and it matches a value exactly when the format says so. */
  lemma MatchIsRead(text: string, spec: FieldSpec, v: int)
    ensures FieldMatches(text, spec, v) <==> IsMatch(text, spec, v)
  {
    var parts := SplitOn(LowerAll(text), ',');
    ListIsRead(LowerAll(text), parts);
    LoweredIs(text, LowerAll(text));
    if FieldMatches(text, spec, v) {
      var item :| item in parts && ReadItem(item, spec).Some? && InSteps(ReadItem(item, spec).value, v);
      ItemIsRead(item, spec, ReadItem(item, spec).value);
      StepsAreReached(ReadItem(item, spec).value, v);
    }
    if lower, items, item, s :|
      IsLowered(text, lower) && IsList(lower, items) && item in items && ItemMeans(item, spec, s) && Reaches(s, v)
    {
      LoweredIs(text, lower);
      ListIsRead(lower, items);
      ItemIsRead(item, spec, s);
      StepsAreReached(s, v);
    }
  }

  // ---- the words of an expression ------------------------------------------------------------------

  /** Space, tab, line feed, vertical tab, form feed, carriage return, and the four separators. */
  predicate IsGap(c: char)
  {
    c == ' ' || c == '\t' || c == '\n' || c == '\U{000B}' || c == '\U{000C}' || c == '\r'
    || c == '\U{001C}' || c == '\U{001D}' || c == '\U{001E}' || c == '\U{001F}'
  }

  lemma BlankIsGap(c: char)
    ensures IsBlank(c) <==> IsGap(c)
  {
  }

  predicate AllBlank(s: string) { forall i :: 0 <= i < |s| ==> IsGap(s[i]) }

  predicate IsWord(w: string) { |w| > 0 && forall i :: 0 <= i < |w| ==> !IsGap(w[i]) }

  /** A text that begins with a word: blanks, the word, and what a blank may part from it. */
  predicate Begins(s: string, gap: string, w: string, rest: string)
  {
    s == gap + w + rest && AllBlank(gap) && IsWord(w) && (|rest| > 0 ==> IsGap(rest[0]))
  }

  /** The text is put together from these words, in this order. */
  ghost predicate IsSpelled(s: string, ws: seq<string>)
    decreases |ws|
  {
    if |ws| == 0 then AllBlank(s)
    else exists gap, rest :: Begins(s, gap, ws[0], rest) && IsSpelled(rest, ws[1..])
  }

  lemma {:induction false} BlanksDrop(gap: string, s: string)
    requires AllBlank(gap)
    ensures Words(gap + s) == Words(s)
  {
    if |gap| == 0 {
      assert gap + s == s;
    } else {
      assert (gap + s)[1..] == gap[1..] + s && (gap + s)[0] == gap[0];
      BlanksDrop(gap[1..], s);
    }
  }

  lemma {:induction false} WordIsFirst(w: string, rest: string)
    requires IsWord(w) && (|rest| > 0 ==> IsBlank(rest[0]))
    ensures Words(w + rest) == [w] + Words(rest)
  {
    var s := w + rest;
    assert s[0] == w[0] && s[1..] == w[1..] + rest;
    if |w| == 1 {
      assert w == [w[0]] && s[1..] == rest;
      if |rest| > 0 { assert s[1] == rest[0]; }
    } else {
      assert s[1] == w[1];
      WordIsFirst(w[1..], rest);
      assert w == [w[0]] + w[1..];
    }
  }

  lemma BeginsIsSplit(s: string, gap: string, w: string, rest: string)
    requires Begins(s, gap, w, rest)
    ensures Words(s) == [w] + Words(rest)
  {
    assert s == gap + (w + rest);
    BlanksDrop(gap, w + rest);
    WordIsFirst(w, rest);
  }

  lemma {:induction false} SpelledIsSplit(s: string, ws: seq<string>)
    requires IsSpelled(s, ws)
    ensures Words(s) == ws
    decreases |ws|
  {
    if |ws| == 0 {
      BlanksDrop(s, "");
      assert s + "" == s;
    } else {
      var gap, rest :| Begins(s, gap, ws[0], rest) && IsSpelled(rest, ws[1..]);
      BeginsIsSplit(s, gap, ws[0], rest);
      SpelledIsSplit(rest, ws[1..]);
    }
  }

  lemma SpelledFrom(s: string, gap: string, w: string, rest: string, ws: seq<string>)
    requires Begins(s, gap, w, rest) && IsSpelled(rest, ws)
    ensures IsSpelled(s, [w] + ws)
  {
    var all := [w] + ws;
    assert all[1..] == ws;
    assert Begins(s, gap, all[0], rest) && IsSpelled(rest, all[1..]);
  }

  lemma BeginsAfterBlank(s: string, gap: string, w: string, rest: string)
    requires |s| > 0 && IsBlank(s[0]) && Begins(s[1..], gap, w, rest)
    ensures Begins(s, [s[0]] + gap, w, rest)
  {
    assert s == [s[0]] + s[1..];
  }

  lemma BeginsWithLetter(s: string, gap: string, w: string, rest: string)
    requires |s| > 1 && !IsBlank(s[0]) && !IsBlank(s[1]) && Begins(s[1..], gap, w, rest)
    ensures Begins(s, "", [s[0]] + w, rest)
  {
    assert s[1..][0] == s[1];
    assert gap == "";
    assert s == [s[0]] + s[1..];
  }

  lemma BlankBefore(s: string, ws: seq<string>)
    requires |s| > 0 && IsBlank(s[0]) && IsSpelled(s[1..], ws)
    ensures IsSpelled(s, ws)
  {
    if |ws| > 0 {
      var gap, rest :| Begins(s[1..], gap, ws[0], rest) && IsSpelled(rest, ws[1..]);
      BeginsAfterBlank(s, gap, ws[0], rest);
    }
  }

  lemma LetterBefore(s: string, ws: seq<string>)
    requires |s| > 1 && !IsBlank(s[0]) && !IsBlank(s[1]) && |ws| > 0 && IsSpelled(s[1..], ws)
    ensures IsSpelled(s, [[s[0]] + ws[0]] + ws[1..])
  {
    var gap, rest :| Begins(s[1..], gap, ws[0], rest) && IsSpelled(rest, ws[1..]);
    BeginsWithLetter(s, gap, ws[0], rest);
    SpelledFrom(s, "", [s[0]] + ws[0], rest, ws[1..]);
  }

  lemma {:induction false} SomeWord(s: string, ws: seq<string>)
    requires IsSpelled(s, ws) && |s| > 0 && !IsBlank(s[0])
    ensures |ws| > 0
  {
  }

  lemma {:induction false} EveryTextIsSpelled(s: string) returns (ws: seq<string>)
    ensures IsSpelled(s, ws)
  {
    if |s| == 0 {
      ws := [];
    } else {
      ws := EveryTextIsSpelled(s[1..]);
      if IsBlank(s[0]) {
        BlankBefore(s, ws);
      } else if |s| == 1 || IsBlank(s[1]) {
        assert Begins(s, "", [s[0]], s[1..]);
        SpelledFrom(s, "", [s[0]], s[1..], ws);
        ws := [[s[0]]] + ws;
      } else {
        SomeWord(s[1..], ws);
        LetterBefore(s, ws);
        ws := [[s[0]] + ws[0]] + ws[1..];
      }
    }
  }

  /** MAIN: the words that the code splits a text into are those it is put together from, in order. */
  lemma WordsAreSpelled(s: string, ws: seq<string>)
    ensures Words(s) == ws <==> IsSpelled(s, ws)
  {
    var spelled := EveryTextIsSpelled(s);
    SpelledIsSplit(s, spelled);
    if IsSpelled(s, ws) { SpelledIsSplit(s, ws); }
  }
}
