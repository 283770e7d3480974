/** Cron compilation (cron_trigger_fields in blackvuesync/settings.py) keeps the meaning of
    the expression. Standard cron is the crontab format of POSIX (IEEE Std 1003.1, crontab,
    INPUT FILES) with the names, steps and day rule of Vixie cron. */
module Cron {
  import opened Common
  import opened Recordings
  import opened CronText
  import opened CronStandard

  // ---- parsing -----------------------------------------------------------------------------------

  /** The parsed expression: five valid fields. None is the ValueError of _parse_cron. */
  datatype Expression = Expression(minute: string, hour: string, day: string, month: string, dow: string)

  function ParseCron(expression: string): Option<Expression>
  {
    var parts := Words(expression);
    if |parts| == 5 && ValidField(parts[0], MINUTE) && ValidField(parts[1], HOUR) && ValidField(parts[2], DAY)
       && ValidField(parts[3], MONTH) && ValidField(parts[4], DOW)
    then Some(Expression(parts[0], parts[1], parts[2], parts[3], parts[4]))
    else None
  }

  function FieldValues(text: string, spec: FieldSpec): (r: set<int>)
    ensures forall v :: v in r <==> spec.lo <= v <= spec.hi && FieldMatches(text, spec, v)
  {
    set v: int | spec.lo <= v <= spec.hi && FieldMatches(text, spec, v)
  }

  lemma ItemInBounds(item: string, spec: FieldSpec, v: int)
    requires ReadItem(item, spec).Some? && InSteps(ReadItem(item, spec).value, v)
    ensures spec.lo <= v <= spec.hi
  {
  }

  /** The text has these five words, in this order, and each is a field of its kind. */
  ghost predicate IsCrontab(expression: string, e: Expression)
  {
    && IsSpelled(expression, [e.minute, e.hour, e.day, e.month, e.dow])
    && IsField(e.minute, MINUTE) && IsField(e.hour, HOUR) && IsField(e.day, DAY)
    && IsField(e.month, MONTH) && IsField(e.dow, DOW)
  }

  /** A text is parsed iff it is five fields of the crontab format, and into these. */
  lemma ParseAcceptsTheFormat(expression: string, e: Expression)
    ensures ParseCron(expression) == Some(e) <==> IsCrontab(expression, e)
  {
    var words := [e.minute, e.hour, e.day, e.month, e.dow];
    var parts := Words(expression);
    WordsAreSpelled(expression, words);
    FieldIsRead(e.minute, MINUTE);
    FieldIsRead(e.hour, HOUR);
    FieldIsRead(e.day, DAY);
    FieldIsRead(e.month, MONTH);
    FieldIsRead(e.dow, DOW);
    if ParseCron(expression) == Some(e) { assert parts == words; }
  }

  /** _expand_cron_field: the loop over the items that collects their values. It rejects exactly
      what is no field of the format, and collects exactly the values that the field matches. */
  method ExpandCronField(text: string, spec: FieldSpec) returns (r: Option<set<int>>)
    ensures r.Some? <==> IsField(text, spec)
    ensures r.Some? ==> forall v :: v in r.value <==> IsMatch(text, spec, v)
    ensures r.Some? ==> r.value == FieldValues(text, spec)
  {
    FieldIsRead(text, spec);
    var items := SplitOn(LowerAll(text), ',');
    var values: set<int> := {};
    for i := 0 to |items|
      invariant forall j :: 0 <= j < i ==> ReadItem(items[j], spec).Some?
      invariant forall v :: v in values <==> exists j :: 0 <= j < i && InSteps(ReadItem(items[j], spec).value, v)
    {
      var steps := ReadItem(items[i], spec);
      if steps.None? {
        assert items[i] in items;
        return None;
      }
      var s := steps.value;
      values := values + set v: int | s.first <= v <= s.last && InSteps(s, v);
    }
    forall v ensures v in values <==> FieldMatches(text, spec, v) {
      if j :| 0 <= j < |items| && InSteps(ReadItem(items[j], spec).value, v) {
        assert items[j] in items;
      }
    }
    forall v | FieldMatches(text, spec, v) ensures spec.lo <= v <= spec.hi {
      var item :| item in items && ReadItem(item, spec).Some? && InSteps(ReadItem(item, spec).value, v);
      ItemInBounds(item, spec, v);
    }
    forall v ensures v in values <==> IsMatch(text, spec, v) { MatchIsRead(text, spec, v); }
    r := Some(values);
  }

  // ---- month names to numerals --------------------------------------------------------------------

  function Decimal(n: nat): string
  {
    if n < 10 then [('0' as int + n) as char] else Decimal(n / 10) + [('0' as int + n % 10) as char]
  }

  lemma {:induction false} DecimalReads(n: nat)
    ensures IsNumber(Decimal(n)) && Number(Decimal(n)) == n
  {
    var s := Decimal(n);
    if n >= 10 {
      DecimalReads(n / 10);
      assert s[..|s| - 1] == Decimal(n / 10);
    } else {
      assert s[..0] == [] && Number([]) == 0;
    }
  }

  /** The length of the run of letters that a text starts with. */
  function RunLength(s: string): (n: nat)
    ensures n <= |s| && (forall i :: 0 <= i < n ==> IsLetter(s[i])) && (n < |s| ==> !IsLetter(s[n]))
  {
    if |s| > 0 && IsLetter(s[0]) then 1 + RunLength(s[1..]) else 0
  }

  /** The replacement for one run of letters. In a valid field every run is a month name. */
  function MonthNumeral(run: string): string
  {
    if run in MONTH_NAMES then Decimal(IndexOf(MONTH_NAMES, run) + 1) else run
  }

  /** re.sub("[a-z]+", f, s) */
  function ReplaceRuns(s: string, f: string -> string): string
    decreases |s|
  {
    if |s| == 0 then ""
    else if IsLetter(s[0]) then f(s[..RunLength(s)]) + ReplaceRuns(s[RunLength(s)..], f)
    else [s[0]] + ReplaceRuns(s[1..], f)
  }

  function Numerals(s: string): string { ReplaceRuns(s, MonthNumeral) }

  lemma {:induction false} RunLengthCut(a: string, b: string)
    requires |b| > 0 ==> !IsLetter(b[0])
    ensures RunLength(a + b) == RunLength(a)
  {
    if |a| == 0 {
      assert a + b == b;
    } else {
      assert (a + b)[1..] == a[1..] + b && (a + b)[0] == a[0];
      RunLengthCut(a[1..], b);
    }
  }

  lemma Associate(a: string, b: string, c: string)
    ensures a + (b + c) == a + b + c
  {
  }

  /** Replacement works on both sides of a cut before a character that is no letter. */
  lemma {:induction false} ReplaceCut(a: string, b: string, f: string -> string)
    requires |b| > 0 ==> !IsLetter(b[0])
    ensures ReplaceRuns(a + b, f) == ReplaceRuns(a, f) + ReplaceRuns(b, f)
    decreases |a|
  {
    if |a| == 0 {
      assert a + b == b;
    } else {
      var whole := a + b;
      var n := if IsLetter(a[0]) then RunLength(a) else 1;
      RunLengthCut(a, b);
      assert whole[0] == a[0] && whole[..n] == a[..n] && whole[n..] == a[n..] + b;
      ReplaceCut(a[n..], b, f);
      Associate(if IsLetter(a[0]) then f(a[..n]) else [a[0]], ReplaceRuns(a[n..], f), ReplaceRuns(b, f));
    }
  }

  ghost predicate AddsNo(f: string -> string, sep: char)
  {
    forall run :: sep !in run ==> sep !in f(run)
  }

  lemma {:induction false} ReplaceAddsNoSeparator(s: string, sep: char, f: string -> string)
    requires AddsNo(f, sep) && sep !in s
    ensures sep !in ReplaceRuns(s, f)
    decreases |s|
  {
    if |s| > 0 {
      assert s[0] in s;
      if IsLetter(s[0]) {
        ReplaceAddsNoSeparator(s[RunLength(s)..], sep, f);
      } else {
        ReplaceAddsNoSeparator(s[1..], sep, f);
      }
    }
  }

  lemma NumeralsAddNo(sep: char)
    requires !IsDigit(sep)
    ensures AddsNo(MonthNumeral, sep)
  {
    forall run | sep !in run ensures sep !in MonthNumeral(run) {
      if run in MONTH_NAMES { DecimalReads(IndexOf(MONTH_NAMES, run) + 1); }
    }
  }

  function ReplaceAll(parts: seq<string>, f: string -> string): (r: seq<string>)
    ensures |r| == |parts| && forall i :: 0 <= i < |parts| ==> r[i] == ReplaceRuns(parts[i], f)
  {
    seq(|parts|, i requires 0 <= i < |parts| => ReplaceRuns(parts[i], f))
  }

  lemma ReplaceAtSeparator(a: string, sep: char, b: string, f: string -> string)
    requires !IsLetter(sep)
    ensures ReplaceRuns(a + [sep] + b, f) == ReplaceRuns(a, f) + [sep] + ReplaceRuns(b, f)
  {
    var tail := [sep] + b;
    assert tail[1..] == b && tail[0] == sep;
    ReplaceCut(a, tail, f);
    Associate(a, [sep], b);
    Associate(ReplaceRuns(a, f), [sep], ReplaceRuns(b, f));
  }

  lemma ReplaceAllCons(first: string, rest: seq<string>, f: string -> string)
    ensures ReplaceAll([first] + rest, f) == [ReplaceRuns(first, f)] + ReplaceAll(rest, f)
  {
  }

  /** Replacing runs of letters and splitting commute. */
  lemma {:induction false} ReplaceSplit(s: string, sep: char, f: string -> string)
    requires !IsLetter(sep) && AddsNo(f, sep)
    ensures SplitOn(ReplaceRuns(s, f), sep) == ReplaceAll(SplitOn(s, sep), f)
    decreases |s|
  {
    if sep !in s {
      SplitNone(s, sep);
      ReplaceAddsNoSeparator(s, sep, f);
      SplitNone(ReplaceRuns(s, f), sep);
    } else {
      var i := FirstSeparator(s, sep);
      var a, b := s[..i], s[i + 1..];
      ReplaceSplit(b, sep, f);
      ReplaceAtSeparator(a, sep, b, f);
      ReplaceAddsNoSeparator(a, sep, f);
      SplitAt(a, sep, b);
      SplitAt(ReplaceRuns(a, f), sep, ReplaceRuns(b, f));
      ReplaceAllCons(a, SplitOn(b, sep), f);
    }
  }

  lemma NumeralsSplit(s: string, sep: char)
    requires !IsLetter(sep) && !IsDigit(sep)
    ensures var r := SplitOn(Numerals(s), sep);
      |r| == |SplitOn(s, sep)| && forall i :: 0 <= i < |r| ==> r[i] == Numerals(SplitOn(s, sep)[i])
  {
    NumeralsAddNo(sep);
    ReplaceSplit(s, sep, MonthNumeral);
  }

  lemma {:induction false} NumeralsOfNumber(s: string)
    requires Digits(s)
    ensures Numerals(s) == s
  {
    if |s| > 0 {
      assert IsDigit(s[0]) && !IsLetter(s[0]);
      NumeralsOfNumber(s[1..]);
      assert s == [s[0]] + s[1..];
    }
  }

  lemma NamesAreLetters(s: string)
    requires s in MONTH_NAMES
    ensures |s| == 3 && IsLetter(s[0]) && IsLetter(s[1]) && IsLetter(s[2])
  {
  }

  lemma NumeralsOfName(s: string)
    requires s in MONTH_NAMES
    ensures Numerals(s) == Decimal(IndexOf(MONTH_NAMES, s) + 1)
  {
    NamesAreLetters(s);
    OneRun(s, MonthNumeral);
  }

  lemma OneRun(s: string, f: string -> string)
    requires |s| > 0 && forall i :: 0 <= i < |s| ==> IsLetter(s[i])
    ensures ReplaceRuns(s, f) == f(s)
  {
    assert RunLength(s) == |s|;
    assert s[..|s|] == s && s[|s|..] == "";
  }

  // ---- one item, read both ways -------------------------------------------------------------------

  lemma MonthToken(token: string)
    requires CronValue(token, MONTH).Some?
    ensures IsNumber(Numerals(token)) && Number(Numerals(token)) == CronValue(token, MONTH).value
  {
    if IsNumber(token) {
      NumeralsOfNumber(token);
    } else {
      NumeralsOfName(token);
      DecimalReads(IndexOf(MONTH_NAMES, token) + 1);
    }
  }

  lemma MonthBase(b: string, stepped: bool, step: nat)
    requires ReadBase(b, stepped, step, MONTH).Some?
    ensures ScheduledBase(Numerals(b), stepped, step, 1, 12) == ReadBase(b, stepped, step, MONTH)
  {
    if b == "*" {
      assert Numerals("*") == "*" by { assert "*"[1..] == ""; }
    } else {
      var ends := SplitOn(b, '-');
      NumeralsSplit(b, '-');
      MonthToken(ends[0]);
      MonthToken(ends[|ends| - 1]);
      SplitNone("*", '-');
      assert !IsNumber("*");
    }
  }

  lemma MonthItem(item: string)
    requires ReadItem(item, MONTH).Some?
    ensures ScheduledItem(Numerals(item), 1, 12) == ReadItem(item, MONTH)
  {
    var parts := SplitOn(item, '/');
    NumeralsSplit(item, '/');
    MonthBase(parts[0], |parts| == 2, if |parts| == 2 then Number(parts[1]) else 1);
    if |parts| == 2 { NumeralsOfNumber(parts[1]); }
  }

  predicate Nameless(spec: FieldSpec) { |spec.names| == 0 }

  lemma NamelessItem(item: string, spec: FieldSpec)
    requires Nameless(spec) && ReadItem(item, spec).Some?
    ensures ScheduledItem(item, spec.lo, spec.hi) == ReadItem(item, spec)
  {
  }

  lemma NamelessBaseHasNoLetter(b: string, stepped: bool, step: nat, spec: FieldSpec, c: char)
    requires Nameless(spec) && ReadBase(b, stepped, step, spec).Some? && c in b
    ensures !IsLetter(c)
  {
    if b != "*" && c != '-' {
      var ends := SplitOn(b, '-');
      PartsOf(b, '-', c);
      var e :| e in ends && c in e;
      assert e == ends[0] || e == ends[|ends| - 1];
      assert IsNumber(e);
    }
  }

  lemma NamelessHasNoLetter(item: string, spec: FieldSpec, c: char)
    requires Nameless(spec) && ReadItem(item, spec).Some? && c in item
    ensures !IsLetter(c)
  {
    if c != '/' {
      var parts := SplitOn(item, '/');
      PartsOf(item, '/', c);
      var p :| p in parts && c in p;
      if p == parts[0] {
        NamelessBaseHasNoLetter(p, |parts| == 2, if |parts| == 2 then Number(parts[1]) else 1, spec, c);
      }
    }
  }

  // ---- whole fields --------------------------------------------------------------------------------

  /** A valid field without names has no letters, so lower-casing leaves it as it is. */
  lemma NamelessIsLower(text: string, spec: FieldSpec)
    requires Nameless(spec) && ValidField(text, spec)
    ensures LowerAll(text) == text
  {
    var lower := LowerAll(text);
    forall i | 0 <= i < |text| ensures text[i] == lower[i] {
      var c := lower[i];
      if c != ',' {
        PartsOf(lower, ',', c);
        var item :| item in SplitOn(lower, ',') && c in item;
        NamelessHasNoLetter(item, spec, c);
      }
      assert !IsLetter(c) && c == Lower(text[i]);
      LowerIsLetter(text[i]);
    }
  }

  lemma LowerIsLetter(c: char)
    ensures 'A' <= c <= 'Z' ==> IsLetter(Lower(c))
  {
  }

  /** Minute, hour and day of month are passed on as they are, and mean the same. */
  lemma NamelessField(text: string, spec: FieldSpec, v: int)
    requires Nameless(spec) && ValidField(text, spec)
    ensures Readable(text, spec.lo, spec.hi)
    ensures Scheduled(text, spec.lo, spec.hi, v) <==> IsMatch(text, spec, v)
  {
    MatchIsRead(text, spec, v);
    NamelessIsLower(text, spec);
    forall item | item in SplitOn(text, ',') ensures ScheduledItem(item, spec.lo, spec.hi) == ReadItem(item, spec) {
      NamelessItem(item, spec);
    }
  }

  /** The month field with its names replaced by numerals means the same. */
  lemma MonthField(text: string, v: int)
    requires ValidField(text, MONTH)
    ensures Readable(Numerals(LowerAll(text)), 1, 12)
    ensures Scheduled(Numerals(LowerAll(text)), 1, 12, v) <==> IsMatch(text, MONTH, v)
  {
    MatchIsRead(text, MONTH, v);
    var items, items' := SplitOn(LowerAll(text), ','), SplitOn(Numerals(LowerAll(text)), ',');
    NumeralsSplit(LowerAll(text), ',');
    forall i | 0 <= i < |items| ensures ScheduledItem(items'[i], 1, 12) == ReadItem(items[i], MONTH) {
      assert items[i] in items;
      MonthItem(items[i]);
    }
    SameItems(items, items', MONTH, v);
  }

  lemma SameItems(items: seq<string>, items': seq<string>, spec: FieldSpec, v: int)
    requires |items| == |items'|
    requires forall i :: 0 <= i < |items| ==> ScheduledItem(items'[i], spec.lo, spec.hi) == ReadItem(items[i], spec)
    ensures (exists item :: item in items' && ScheduledItem(item, spec.lo, spec.hi).Some?
               && InSteps(ScheduledItem(item, spec.lo, spec.hi).value, v))
       <==> (exists item :: item in items && ReadItem(item, spec).Some? && InSteps(ReadItem(item, spec).value, v))
  {
    if item :|
      item in items' && ScheduledItem(item, spec.lo, spec.hi).Some?
      && InSteps(ScheduledItem(item, spec.lo, spec.hi).value, v)
    {
      var i :| 0 <= i < |items'| && items'[i] == item;
      assert items[i] in items;
    }
    if item :| item in items && ReadItem(item, spec).Some? && InSteps(ReadItem(item, spec).value, v) {
      var i :| 0 <= i < |items| && items[i] == item;
      assert items'[i] in items';
    }
  }

  // ---- days of the week ----------------------------------------------------------------------------

  /** Names in the scheduler's order of the week, which starts on Monday. */
  const SCHEDULER_DAYS := ["mon", "tue", "wed", "thu", "fri", "sat", "sun"]

  /** Standard cron: 0 and 7 are both Sunday. `d` counts from Sunday = 0. */
  ghost predicate IsDayMatch(text: string, d: int)
  {
    IsMatch(text, DOW, d) || (d == 0 && IsMatch(text, DOW, 7))
  }

  /** The same, as the parser reads the field. */
  predicate DowMatches(text: string, d: int)
  {
    FieldMatches(text, DOW, d) || (d == 0 && FieldMatches(text, DOW, 7))
  }

  /** The days of the week of a field, sevens folded to zeros. */
  function DaysOfWeek(text: string): set<int>
  {
    set v | v in FieldValues(text, DOW) :: v % 7
  }

  lemma DayMatchIsRead(text: string, d: int)
    ensures DowMatches(text, d) <==> IsDayMatch(text, d)
  {
    MatchIsRead(text, DOW, d);
    MatchIsRead(text, DOW, 7);
  }

  lemma FoldSeven(v: int)
    requires 0 <= v <= 7
    ensures v % 7 == if v == 7 then 0 else v
  {
  }

  lemma DaysOfWeekMatch(text: string, d: int)
    requires 0 <= d < 7
    ensures d in DaysOfWeek(text) <==> DowMatches(text, d)
  {
    var values := FieldValues(text, DOW);
    forall v | v in values ensures v % 7 == if v == 7 then 0 else v { FoldSeven(v); }
    assert d in DaysOfWeek(text) <==> exists v :: v in values && v % 7 == d;
    FoldSeven(d);
    FoldSeven(7);
    assert d in values ==> d % 7 == d;
    assert 7 in values ==> 7 % 7 == 0;
  }

  function NamesFrom(days: set<int>, d: nat): (r: seq<string>)
    requires d <= 7
    ensures forall n :: n in r <==> exists i :: d <= i < 7 && i in days && DOW_NAMES[i] == n
    decreases 7 - d
  {
    if d == 7 then []
    else if d in days then [DOW_NAMES[d]] + NamesFrom(days, d + 1)
    else NamesFrom(days, d + 1)
  }

  /** The day-of-week field that is emitted: all days, or names. */
  function DowField(text: string): string
  {
    var names := NamesFrom(DaysOfWeek(text), 0);
    if |names| == 7 then "*" else if |names| == 0 then "" else Join(names, ',')
  }

  /** The scheduler's reading of it: `weekday` counts from Monday = 0. */
  predicate ScheduledDow(text: string, weekday: nat)
    requires weekday < 7
  {
    exists item :: item in SplitOn(text, ',') && (item == "*" || item == SCHEDULER_DAYS[weekday])
  }

  /** Cron counts days from Sunday, the scheduler from Monday. */
  function CronDay(weekday: nat): nat { (weekday + 1) % 7 }

  lemma SchedulerDayName(weekday: nat)
    requires weekday < 7
    ensures SCHEDULER_DAYS[weekday] == DOW_NAMES[CronDay(weekday)]
  {
  }

  lemma DowNamesDistinct(i: nat, j: nat)
    requires i < 7 && j < 7 && DOW_NAMES[i] == DOW_NAMES[j]
    ensures i == j
  {
    var s, t := DOW_NAMES[i], DOW_NAMES[j];
    assert s[0] == t[0] && s[1] == t[1];
  }

  lemma NamesAreNotStars(days: set<int>, n: string)
    requires n in NamesFrom(days, 0)
    ensures n != "*" && ',' !in n
  {
    var i :| 0 <= i < 7 && i in days && DOW_NAMES[i] == n;
    assert |DOW_NAMES[i]| == 3 && DOW_NAMES[i][0] != ',' && DOW_NAMES[i][1] != ',' && DOW_NAMES[i][2] != ',';
  }

  lemma {:induction false} ManyNames(days: set<int>, d: nat)
    requires d <= 7
    ensures |NamesFrom(days, d)| <= 7 - d
    ensures |NamesFrom(days, d)| == 7 - d ==> forall i :: d <= i < 7 ==> i in days
    decreases 7 - d
  {
    if d < 7 { ManyNames(days, d + 1); }
  }

  /** The emitted day-of-week field matches exactly the days of the cron field, although the two
      sides number the week differently. */
  lemma DowFieldMeans(text: string, weekday: nat)
    requires weekday < 7
    ensures ScheduledDow(DowField(text), weekday) <==> IsDayMatch(text, CronDay(weekday))
  {
    var days := DaysOfWeek(text);
    var names := NamesFrom(days, 0);
    var d := CronDay(weekday);
    DayMatchIsRead(text, d);
    DaysOfWeekMatch(text, d);
    ManyNames(days, 0);
    SchedulerDayName(weekday);
    NameListed(days, d);
    if |names| == 7 {
      SplitNone("*", ',');
      assert "*" in SplitOn(DowField(text), ',');
      assert d in days;
    } else if |names| == 0 {
      assert DOW_NAMES[d] !in names;
      assert SplitOn("", ',') == [""];
      assert "" != DOW_NAMES[d] by { assert |DOW_NAMES[d]| == 3; }
    } else {
      forall n | n in names ensures ',' !in n && n != "*" { NamesAreNotStars(days, n); }
      SplitJoin(names, ',');
    }
  }

  lemma NameListed(days: set<int>, d: nat)
    requires d < 7
    ensures DOW_NAMES[d] in NamesFrom(days, 0) <==> d in days
  {
    if DOW_NAMES[d] in NamesFrom(days, 0) {
      var i :| 0 <= i < 7 && i in days && DOW_NAMES[i] == DOW_NAMES[d];
      DowNamesDistinct(i, d);
    }
  }

  // ---- the compiled trigger ------------------------------------------------------------------------

  /** One set of scheduler fields. */
  datatype Trigger = Trigger(minute: string, hour: string, day: string, month: string, dayOfWeek: string)

  predicate StartsWithStar(s: string) { |s| > 0 && s[0] == '*' }

  /** cron_trigger_fields: two sets of fields, to be ORed, when both day fields are restricted. */
  function TriggerFields(e: Expression): seq<Trigger>
  {
    var month := Numerals(LowerAll(e.month));
    var dow := DowField(e.dow);
    if !StartsWithStar(e.day) && !StartsWithStar(e.dow) then
      [Trigger(e.minute, e.hour, e.day, month, "*"), Trigger(e.minute, e.hour, "*", month, dow)]
    else [Trigger(e.minute, e.hour, e.day, month, dow)]
  }

  /** A moment on the calendar; weekday counts from Monday = 0. */
  datatype Instant = Instant(minute: nat, hour: nat, day: nat, month: nat, weekday: nat)

  predicate OnCalendar(t: Instant)
  {
    t.minute <= 59 && t.hour <= 23 && 1 <= t.day <= 31 && 1 <= t.month <= 12 && t.weekday < 7
  }

  /** A star, alone or with more after it. */
  ghost predicate IsStarred(field: string) { exists rest :: field == "*" + rest }

  lemma StarIsFirst(field: string)
    ensures StartsWithStar(field) <==> IsStarred(field)
  {
    if StartsWithStar(field) { assert field == "*" + field[1..]; }
  }

  /** Standard cron: all of minute, hour and month, and of the two day fields both, or either
      when neither starts with a star. */
  ghost predicate CronFires(e: Expression, t: Instant)
  {
    && IsMatch(e.minute, MINUTE, t.minute)
    && IsMatch(e.hour, HOUR, t.hour)
    && IsMatch(e.month, MONTH, t.month)
    && var day, dow := IsMatch(e.day, DAY, t.day), IsDayMatch(e.dow, CronDay(t.weekday));
       if IsStarred(e.day) || IsStarred(e.dow) then day && dow else day || dow
  }

  predicate TriggerFires(k: Trigger, t: Instant)
    requires t.weekday < 7
  {
    && Scheduled(k.minute, 0, 59, t.minute) && Scheduled(k.hour, 0, 23, t.hour)
    && Scheduled(k.day, 1, 31, t.day) && Scheduled(k.month, 1, 12, t.month)
    && ScheduledDow(k.dayOfWeek, t.weekday)
  }

  predicate AnyFires(ks: seq<Trigger>, t: Instant)
    requires t.weekday < 7
  {
    exists k :: k in ks && TriggerFires(k, t)
  }

  lemma StarMatchesAll(lo: nat, hi: nat, v: int, weekday: nat)
    requires lo <= v <= hi && weekday < 7
    ensures Scheduled("*", lo, hi, v) && ScheduledDow("*", weekday)
  {
    SplitNone("*", ',');
    SplitNone("*", '/');
    assert "*" in SplitOn("*", ',');
    assert ScheduledItem("*", lo, hi) == Some(Steps(lo, hi, 1));
    assert InSteps(Steps(lo, hi, 1), v);
  }

  lemma TriggerMeans(e: Expression, t: Instant, day: string, dow: string)
    requires ValidField(e.minute, MINUTE) && ValidField(e.hour, HOUR) && ValidField(e.month, MONTH)
    requires OnCalendar(t)
    ensures TriggerFires(Trigger(e.minute, e.hour, day, Numerals(LowerAll(e.month)), dow), t)
      <==> IsMatch(e.minute, MINUTE, t.minute) && IsMatch(e.hour, HOUR, t.hour)
           && IsMatch(e.month, MONTH, t.month) && Scheduled(day, 1, 31, t.day) && ScheduledDow(dow, t.weekday)
  {
    NamelessField(e.minute, MINUTE, t.minute);
    NamelessField(e.hour, HOUR, t.hour);
    MonthField(e.month, t.month);
  }

  /** MAIN: for every valid expression and every moment, the OR of the compiled triggers fires
      exactly when standard cron does. */
  lemma CompiledCronMeansCron(expression: string, e: Expression, t: Instant)
    requires IsCrontab(expression, e) && OnCalendar(t)
    ensures ParseCron(expression) == Some(e)
    ensures AnyFires(TriggerFields(ParseCron(expression).value), t) <==> CronFires(e, t)
  {
    ParseAcceptsTheFormat(expression, e);
    StarIsFirst(e.day);
    StarIsFirst(e.dow);
    var ks := TriggerFields(e);
    var dow := DowField(e.dow);
    NamelessField(e.day, DAY, t.day);
    DowFieldMeans(e.dow, t.weekday);
    StarMatchesAll(1, 31, t.day, t.weekday);
    TriggerMeans(e, t, e.day, dow);
    TriggerMeans(e, t, e.day, "*");
    TriggerMeans(e, t, "*", dow);
    assert AnyFires(ks, t) <==> TriggerFires(ks[0], t) || (|ks| == 2 && TriggerFires(ks[1], t)) by {
      assert ks[0] in ks && (|ks| == 2 ==> ks[1] in ks);
    }
  }

  // ---- what the scheduler refuses --------------------------------------------------------------------

  lemma ValidItemFits(item: string, spec: FieldSpec)
    requires spec.lo <= spec.hi && ReadItem(item, spec).Some?
    ensures Fits(item, ReadItem(item, spec).value, spec.lo, spec.hi)
      <==> (IsStepped(item) ==> StepWithin(ReadItem(item, spec).value, spec.hi))
  {
  }

  lemma NamelessAcceptedIff(text: string, spec: FieldSpec)
    requires Nameless(spec) && spec.lo <= spec.hi && ValidField(text, spec)
    ensures Acceptable(text, spec.lo, spec.hi) <==> StepsWithin(text, spec)
  {
    NamelessIsLower(text, spec);
    forall item | item in SplitOn(text, ',')
      ensures ScheduledItem(item, spec.lo, spec.hi) == ReadItem(item, spec)
      ensures Fits(item, ReadItem(item, spec).value, spec.lo, spec.hi)
        <==> (IsStepped(item) ==> StepWithin(ReadItem(item, spec).value, spec.hi))
    {
      NamelessItem(item, spec);
      ValidItemFits(item, spec);
    }
  }

  lemma MonthItemFits(item: string)
    requires ReadItem(item, MONTH).Some?
    ensures var read := ScheduledItem(Numerals(item), 1, 12);
      read.Some? && (Fits(Numerals(item), read.value, 1, 12)
        <==> (IsStepped(item) ==> StepWithin(ReadItem(item, MONTH).value, 12)))
  {
    MonthItem(item);
    NumeralsSplit(item, '/');
    ValidItemFits(item, MONTH);
  }

  lemma MonthAcceptedIff(text: string)
    requires ValidField(text, MONTH)
    ensures Acceptable(Numerals(LowerAll(text)), 1, 12) <==> StepsWithin(text, MONTH)
  {
    var items, items' := SplitOn(LowerAll(text), ','), SplitOn(Numerals(LowerAll(text)), ',');
    NumeralsSplit(LowerAll(text), ',');
    forall i | 0 <= i < |items|
      ensures var read := ScheduledItem(items'[i], 1, 12);
        read.Some? && (Fits(items'[i], read.value, 1, 12)
          <==> (IsStepped(items[i]) ==> StepWithin(ReadItem(items[i], MONTH).value, 12)))
    {
      assert items[i] in items && items'[i] == Numerals(items[i]);
      MonthItemFits(items[i]);
    }
    if Acceptable(Numerals(LowerAll(text)), 1, 12) {
      forall item | item in items && IsStepped(item) ensures StepWithin(ReadItem(item, MONTH).value, 12) {
        var i :| 0 <= i < |items| && items[i] == item;
        assert items'[i] in items';
      }
    }
    if StepsWithin(text, MONTH) {
      forall item | item in items'
        ensures ScheduledItem(item, 1, 12).Some? && Fits(item, ScheduledItem(item, 1, 12).value, 1, 12)
      {
        var i :| 0 <= i < |items'| && items'[i] == item;
        assert items[i] in items;
      }
    }
  }

  /** A day-of-week field the scheduler can read: stars and names of days. */
  predicate DowReadable(text: string)
  {
    forall item :: item in SplitOn(text, ',') ==> item == "*" || item in SCHEDULER_DAYS
  }

  lemma SomeDay(text: string) returns (d: nat)
    requires ValidField(text, DOW)
    ensures d < 7 && d in DaysOfWeek(text)
  {
    var item := SplitOn(LowerAll(text), ',')[0];
    assert item in SplitOn(LowerAll(text), ',') && ReadItem(item, DOW).Some?;
    var v := ReadItem(item, DOW).value.first;
    FirstInSteps(item, DOW);
    assert FieldMatches(text, DOW, v);
    ItemInBounds(item, DOW, v);
    assert v in FieldValues(text, DOW);
    d := v % 7;
  }

  lemma FirstInSteps(item: string, spec: FieldSpec)
    requires spec.lo <= spec.hi && ReadItem(item, spec).Some?
    ensures InSteps(ReadItem(item, spec).value, ReadItem(item, spec).value.first)
  {
    ValidItemFits(item, spec);
    assert 0 % ReadItem(item, spec).value.step == 0;
  }

  lemma DowFieldIsReadable(text: string)
    requires ValidField(text, DOW)
    ensures DowReadable(DowField(text))
  {
    var names := NamesFrom(DaysOfWeek(text), 0);
    var d := SomeDay(text);
    NameListed(DaysOfWeek(text), d);
    if |names| == 7 {
      SplitNone("*", ',');
    } else {
      forall n | n in names ensures ',' !in n && n in SCHEDULER_DAYS {
        NamesAreNotStars(DaysOfWeek(text), n);
        assert n in DOW_NAMES;
      }
      SplitJoin(names, ',');
    }
  }

  predicate TriggerAcceptable(k: Trigger)
  {
    && Acceptable(k.minute, 0, 59) && Acceptable(k.hour, 0, 23)
    && Acceptable(k.day, 1, 31) && Acceptable(k.month, 1, 12) && DowReadable(k.dayOfWeek)
  }

  lemma StarIsAccepted()
    ensures Acceptable("*", 1, 31) && DowReadable("*")
  {
    SplitNone("*", ',');
    SplitNone("*", '/');
  }

  /** MAIN: every field that is emitted is one the scheduler can read; and it takes the triggers
      iff each stepped item of minute, hour, day and month has a step within its range. (The
      day-of-week field is emitted as names, so its steps never matter.) */
  lemma CompiledFieldsAcceptedIff(expression: string)
    requires ParseCron(expression).Some?
    ensures var e := ParseCron(expression).value;
      && (forall k :: k in TriggerFields(e) ==>
            && Readable(k.minute, 0, 59) && Readable(k.hour, 0, 23)
            && Readable(k.day, 1, 31) && Readable(k.month, 1, 12) && DowReadable(k.dayOfWeek))
      && ((forall k :: k in TriggerFields(e) ==> TriggerAcceptable(k))
          <==> && StepsWithin(e.minute, MINUTE) && StepsWithin(e.hour, HOUR)
               && StepsWithin(e.day, DAY) && StepsWithin(e.month, MONTH))
  {
    var e := ParseCron(expression).value;
    var ks := TriggerFields(e);
    CompiledFieldsAreReadable(expression);
    NamelessAcceptedIff(e.minute, MINUTE);
    NamelessAcceptedIff(e.hour, HOUR);
    NamelessAcceptedIff(e.day, DAY);
    MonthAcceptedIff(e.month);
    DowFieldIsReadable(e.dow);
    StarIsAccepted();
    assert ks[0] in ks && ks[0].day == e.day;
  }

  lemma CompiledFieldsAreReadable(expression: string)
    requires ParseCron(expression).Some?
    ensures forall k :: k in TriggerFields(ParseCron(expression).value) ==>
      Readable(k.minute, 0, 59) && Readable(k.hour, 0, 23) && Readable(k.day, 1, 31) && Readable(k.month, 1, 12)
  {
    var e := ParseCron(expression).value;
    NamelessField(e.minute, MINUTE, 0);
    NamelessField(e.hour, HOUR, 0);
    NamelessField(e.day, DAY, 0);
    MonthField(e.month, 0);
    SplitNone("*", ',');
    SplitNone("*", '/');
  }
}
