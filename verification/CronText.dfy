/** The text of cron fields: splitting, numbers, and the two parsers of a field, the code's
    (blackvuesync/settings.py) and that of the scheduler that receives the compiled fields. */
module CronText {
  import opened Common
  import opened Recordings

  // ---- splitting -------------------------------------------------------------------------------

  /** str.split(sep): one part more than there are separators. */
  function SplitOn(s: string, sep: char): (r: seq<string>)
    ensures |r| > 0
  {
    if |s| == 0 then [""]
    else
      var rest := SplitOn(s[1..], sep);
      if s[0] == sep then [""] + rest else [[s[0]] + rest[0]] + rest[1..]
  }

  lemma {:induction false} SplitNone(s: string, sep: char)
    requires sep !in s
    ensures SplitOn(s, sep) == [s]
  {
    if |s| > 0 {
      assert s[0] in s && s == [s[0]] + s[1..];
      SplitNone(s[1..], sep);
    }
  }

  lemma {:induction false} SplitAt(a: string, sep: char, b: string)
    requires sep !in a
    ensures SplitOn(a + [sep] + b, sep) == [a] + SplitOn(b, sep)
  {
    var s := a + [sep] + b;
    if |a| == 0 {
      assert s[1..] == b;
    } else {
      assert a[0] in a && s[1..] == a[1..] + [sep] + b && s[0] == a[0];
      SplitAt(a[1..], sep, b);
      assert [a[0]] + a[1..] == a;
    }
  }

  /** Where the first separator is, if any: the induction step of every proof about SplitOn. */
  lemma {:induction false} FirstSeparator(s: string, sep: char) returns (i: nat)
    requires sep in s
    ensures i < |s| && s[i] == sep && sep !in s[..i] && s == s[..i] + [sep] + s[i + 1..]
  {
    if s[0] == sep {
      i := 0;
      assert s == s[..0] + [sep] + s[1..];
    } else {
      var j := FirstSeparator(s[1..], sep);
      i := j + 1;
      assert s[..i] == [s[0]] + s[1..][..j] && s[1..][j + 1..] == s[i + 1..];
      assert s == [s[0]] + s[1..];
    }
  }

  lemma {:induction false} PartsOf(s: string, sep: char, c: char)
    requires c in s && c != sep
    ensures exists p :: p in SplitOn(s, sep) && c in p
    decreases |s|
  {
    if sep !in s {
      SplitNone(s, sep);
      assert s in SplitOn(s, sep);
    } else {
      var i := FirstSeparator(s, sep);
      SplitAt(s[..i], sep, s[i + 1..]);
      if c in s[..i] {
        assert s[..i] in SplitOn(s, sep);
      } else {
        assert c in s[i + 1..];
        PartsOf(s[i + 1..], sep, c);
        var p :| p in SplitOn(s[i + 1..], sep) && c in p;
        assert p in SplitOn(s, sep);
      }
    }
  }

  function Join(parts: seq<string>, sep: char): string
    requires |parts| > 0
  {
    if |parts| == 1 then parts[0] else parts[0] + [sep] + Join(parts[1..], sep)
  }

  lemma {:induction false} SplitJoin(parts: seq<string>, sep: char)
    requires |parts| > 0 && forall p :: p in parts ==> sep !in p
    ensures SplitOn(Join(parts, sep), sep) == parts
  {
    if |parts| == 1 {
      SplitNone(parts[0], sep);
    } else {
      SplitJoin(parts[1..], sep);
      SplitAt(parts[0], sep, Join(parts[1..], sep));
    }
  }

  /** White space of the ASCII characters, at which str.split() splits. */
  predicate IsBlank(c: char) { c == ' ' || 9 <= c as int <= 13 || 28 <= c as int <= 31 }

  function Words(s: string): seq<string>
  {
    if |s| == 0 then []
    else if IsBlank(s[0]) then Words(s[1..])
    else if |s| == 1 || IsBlank(s[1]) then [[s[0]]] + Words(s[1..])
    else
      var rest := Words(s[1..]);
      if |rest| == 0 then [[s[0]]] else [[s[0]] + rest[0]] + rest[1..]
  }

  // ---- characters ------------------------------------------------------------------------------

  predicate IsLetter(c: char) { 'a' <= c <= 'z' }

  function Lower(c: char): char { if 'A' <= c <= 'Z' then c - 'A' + 'a' else c }

  function LowerAll(s: string): (r: string)
    ensures |r| == |s| && forall i :: 0 <= i < |s| ==> r[i] == Lower(s[i])
  {
    seq(|s|, i requires 0 <= i < |s| => Lower(s[i]))
  }

  predicate IsNumber(s: string) { |s| > 0 && Digits(s) }

  /** [0-9a-z]+ */
  predicate IsToken(s: string) { |s| > 0 && forall i :: 0 <= i < |s| ==> IsDigit(s[i]) || IsLetter(s[i]) }

  // ---- how the code reads a field --------------------------------------------------------------

  /** Bounds, names and the value of the first name. */
  datatype FieldSpec = FieldSpec(lo: nat, hi: nat, names: seq<string>, first: nat)

  const MONTH_NAMES := ["jan", "feb", "mar", "apr", "may", "jun", "jul", "aug", "sep", "oct", "nov", "dec"]
  const DOW_NAMES := ["sun", "mon", "tue", "wed", "thu", "fri", "sat"]

  const MINUTE := FieldSpec(0, 59, [], 0)
  const HOUR := FieldSpec(0, 23, [], 0)
  const DAY := FieldSpec(1, 31, [], 0)
  const MONTH := FieldSpec(1, 12, MONTH_NAMES, 1)
  const DOW := FieldSpec(0, 7, DOW_NAMES, 0)

  function IndexOf(names: seq<string>, name: string): (i: nat)
    requires name in names
    ensures i < |names| && names[i] == name
  {
    if names[0] == name then 0 else 1 + IndexOf(names[1..], name)
  }

  /** _cron_value */
  function CronValue(token: string, spec: FieldSpec): Option<nat>
  {
    var value := if IsNumber(token) then Some(Number(token))
                 else if token in spec.names then Some(IndexOf(spec.names, token) + spec.first)
                 else None;
    if value.Some? && spec.lo <= value.value <= spec.hi then value else None
  }

  /** The values from first to last in steps. */
  datatype Steps = Steps(first: nat, last: nat, step: nat)

  predicate InSteps(s: Steps, v: int)
  {
    s.first <= v <= s.last && s.step > 0 && (v - s.first) % s.step == 0
  }

  /** The base of an item: a star, a value or a range. */
  function ReadBase(b: string, stepped: bool, step: nat, spec: FieldSpec): Option<Steps>
  {
    if b == "*" then Some(Steps(spec.lo, spec.hi, step))
    else
      var ends := SplitOn(b, '-');
      if |ends| > 2 || !IsToken(ends[0]) || !IsToken(ends[|ends| - 1]) then None
      else
        var first := CronValue(ends[0], spec);
        if first.None? then None
        else if |ends| == 2 then
          var last := CronValue(ends[1], spec);
          if last.None? || first.value > last.value then None else Some(Steps(first.value, last.value, step))
        else Some(Steps(first.value, if stepped then spec.hi else first.value, step))
  }

  /** One item: base, or base/step; None is a ValueError. */
  function ReadItem(item: string, spec: FieldSpec): Option<Steps>
  {
    var parts := SplitOn(item, '/');
    if |parts| > 2 || (|parts| == 2 && !IsNumber(parts[1])) then None
    else
      var step := if |parts| == 2 then Number(parts[1]) else 1;
      if step < 1 then None else ReadBase(parts[0], |parts| == 2, step, spec)
  }

  predicate ValidField(text: string, spec: FieldSpec)
  {
    forall item :: item in SplitOn(LowerAll(text), ',') ==> ReadItem(item, spec).Some?
  }

  /** A value matches a field when it matches one item of its list. */
  predicate FieldMatches(text: string, spec: FieldSpec, v: int)
  {
    exists item :: item in SplitOn(LowerAll(text), ',') && ReadItem(item, spec).Some?
      && InSteps(ReadItem(item, spec).value, v)
  }

  // ---- the scheduler's reading of a field ------------------------------------------------------

  // Numerals only: *, a, a-b, each with an optional /n; a/n runs to the end of the field.
  function ScheduledBase(b: string, stepped: bool, step: nat, lo: nat, hi: nat): Option<Steps>
  {
    if b == "*" then Some(Steps(lo, hi, step))
    else
      var ends := SplitOn(b, '-');
      if |ends| > 2 || !IsNumber(ends[0]) || !IsNumber(ends[|ends| - 1]) then None
      else if |ends| == 2 then Some(Steps(Number(ends[0]), Number(ends[1]), step))
      else Some(Steps(Number(ends[0]), if stepped then hi else Number(ends[0]), step))
  }

  function ScheduledItem(item: string, lo: nat, hi: nat): Option<Steps>
  {
    var parts := SplitOn(item, '/');
    if |parts| > 2 || (|parts| == 2 && (!IsNumber(parts[1]) || Number(parts[1]) == 0)) then None
    else ScheduledBase(parts[0], |parts| == 2, if |parts| == 2 then Number(parts[1]) else 1, lo, hi)
  }

  /** A field made of such items; a text the scheduler cannot read matches nothing. */
  predicate Scheduled(text: string, lo: nat, hi: nat, v: int)
  {
    exists item :: item in SplitOn(text, ',') && ScheduledItem(item, lo, hi).Some?
      && InSteps(ScheduledItem(item, lo, hi).value, v)
  }

  predicate Readable(text: string, lo: nat, hi: nat)
  {
    forall item :: item in SplitOn(text, ',') ==> ScheduledItem(item, lo, hi).Some?
  }

  /** The item names a step of its own. */
  predicate IsStepped(item: string) { |SplitOn(item, '/')| == 2 }

  /** The step is no larger than the stretch of the range. A last value of 0 counts as none in this
      bound, and the stretch is then taken to the end of the field. */
  predicate StepWithin(s: Steps, hi: nat)
  {
    s.step <= (if s.last == 0 then hi else s.last) - s.first
  }

  /** What the scheduler requires of an item beyond its form: values of the field, in order,
      and a step of its own that is within the range. */
  predicate Fits(item: string, s: Steps, lo: nat, hi: nat)
  {
    lo <= s.first <= s.last <= hi && (IsStepped(item) ==> s.step <= hi - lo && StepWithin(s, hi))
  }

  /** The scheduler takes the field. */
  predicate Acceptable(text: string, lo: nat, hi: nat)
  {
    forall item :: item in SplitOn(text, ',') ==>
      ScheduledItem(item, lo, hi).Some? && Fits(item, ScheduledItem(item, lo, hi).value, lo, hi)
  }

  /** Every stepped item of a cron field has a step within its range. */
  predicate StepsWithin(text: string, spec: FieldSpec)
    requires ValidField(text, spec)
  {
    forall item :: item in SplitOn(LowerAll(text), ',') && IsStepped(item) ==>
      StepWithin(ReadItem(item, spec).value, spec.hi)
  }
}
