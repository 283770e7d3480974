/** Settings and their stored form (blackvuesync/settings.py): sections of typed fields, the
    conversion to and from JSON, validation, and what an update accepts. */
module Settings {
  import opened Common
  import opened FieldTypes

  type Section = map<string, Value>

  /** `tuple` says whether the field is listed in _TUPLE_FIELDS. */
  datatype Field = Field(typ: Type, default: Value, tuple: bool)

  type Fields = map<string, Field>

  /** The sections in their order, their fields, and `check`, the value checks of a section whose
      types are right (_validate_values). */
  datatype Schema = Schema(names: seq<string>, fields: map<string, Fields>, check: (string, Section) -> bool)

  datatype Settings = Settings(version: int, sections: map<string, Section>)

  /** The parsed contents of a settings file. */
  datatype Stored = Stored(version: Option<int>, sections: map<string, Section>)

  const AUTH := "auth"
  const SECRET := "session_secret"
  const SCHEMA_VERSION := 1

  /** A type of values that JSON keeps as they are. */
  predicate Scalar(t: Type)
  {
    match t
    case TupleType(_) => false
    case UnionType(a, b) => Scalar(a) && Scalar(b)
    case _ => true
  }

  ghost predicate GoodField(f: Field)
  {
    && HasType(f.typ, f.default)
    && (f.tuple <==> f.typ.TupleType?)
    && (if f.tuple then Scalar(f.typ.item) && f.default.Tuple? else Scalar(f.typ))
  }

  /** What the source's schema has: typed defaults, and a tuple field for each tuple type. */
  ghost predicate GoodSchema(d: Schema)
  {
    && (forall n :: n in d.names <==> n in d.fields)
    && (forall n, k :: n in d.fields && k in d.fields[n] ==> GoodField(d.fields[n][k]))
    && AUTH in d.fields && SECRET in d.fields[AUTH] && d.fields[AUTH][SECRET].typ.StrType?
  }

  ghost predicate ShapedSection(fields: Fields, section: Section)
  {
    section.Keys == fields.Keys
  }

  /** An instance of the dataclasses. */
  ghost predicate Shaped(d: Schema, s: Settings)
  {
    && s.sections.Keys == d.fields.Keys
    && forall n :: n in d.fields ==> ShapedSection(d.fields[n], s.sections[n])
  }

  // ---- storing and loading ---------------------------------------------------------------------

  /** A value after json.dump and json.load. */
  function JsonOf(v: Value): Value
  {
    match v
    case List(items) => List(JsonAll(items))
    case Tuple(items) => List(JsonAll(items))
    case _ => v
  }

  function JsonAll(vs: seq<Value>): (r: seq<Value>)
    ensures |r| == |vs|
  {
    if |vs| == 0 then [] else [JsonOf(vs[0])] + JsonAll(vs[1..])
  }

  function SectionToDict(section: Section): Section
  {
    map k | k in section :: JsonOf(section[k])
  }

  function SettingsToDict(s: Settings): Stored
  {
    Stored(Some(s.version), map n | n in s.sections :: SectionToDict(s.sections[n]))
  }

  function Restored(f: Field, raw: Value): Value
  {
    var v := if f.tuple && raw.List? then Tuple(raw.items) else raw;
    if HasType(f.typ, v) then v else f.default
  }

  function SectionFromDict(fields: Fields, raw: Section): Section
  {
    map k | k in fields :: if k in raw then Restored(fields[k], raw[k]) else fields[k].default
  }

  /** _load, with the migration that a version before 1 gets. */
  function SettingsFromDict(d: Schema, raw: Stored): Settings
  {
    var version := if raw.version.Some? then raw.version.value else SCHEMA_VERSION;
    Settings(if version < SCHEMA_VERSION then SCHEMA_VERSION else version,
             map n | n in d.fields ::
               SectionFromDict(d.fields[n], if n in raw.sections then raw.sections[n] else map[]))
  }

  lemma {:induction false} ScalarIsKept(t: Type, v: Value)
    requires Scalar(t) && HasType(t, v)
    ensures JsonOf(v) == v && !v.List? && !v.Tuple?
  {
    match t
    case UnionType(a, b) => if HasType(a, v) { ScalarIsKept(a, v); } else { ScalarIsKept(b, v); }
    case _ =>
  }

  lemma {:induction false} ScalarsAreKept(t: Type, vs: seq<Value>)
    requires Scalar(t) && AllHaveType(t, vs)
    ensures JsonAll(vs) == vs
  {
    if |vs| > 0 {
      ScalarIsKept(t, vs[0]);
      ScalarsAreKept(t, vs[1..]);
    }
  }

  /** A field of the right type comes back from the file as it was, unless it holds a list: a list
      passes the type check of a tuple field but comes back as a tuple. */
  lemma {:induction false} FieldReloadsIff(f: Field, v: Value)
    requires GoodField(f) && HasType(f.typ, v)
    ensures Restored(f, JsonOf(v)) == v <==> !v.List?
    ensures HasType(f.typ, Restored(f, JsonOf(v)))
  {
    if f.tuple {
      ScalarsAreKept(f.typ.item, v.items);
    } else {
      ScalarIsKept(f.typ, v);
    }
  }

  ghost predicate TypesOk(fields: Fields, section: Section)
  {
    forall k :: k in fields && k in section ==> HasType(fields[k].typ, section[k])
  }

  /** Every field has its type, and tuple fields hold tuples. */
  ghost predicate Clean(d: Schema, s: Settings)
  {
    && Shaped(d, s) && s.version >= SCHEMA_VERSION
    && forall n :: n in d.fields ==> CleanSection(d.fields[n], s.sections[n])
  }

  ghost predicate CleanSection(fields: Fields, section: Section)
  {
    TypesOk(fields, section) && forall k :: k in section ==> !section[k].List?
  }

  lemma {:induction false} SectionReloads(fields: Fields, section: Section)
    requires ShapedSection(fields, section) && (forall k :: k in fields ==> GoodField(fields[k]))
    requires TypesOk(fields, section)
    ensures SectionFromDict(fields, SectionToDict(section)) == section
      <==> forall k :: k in section ==> !section[k].List?
  {
    var back := SectionFromDict(fields, SectionToDict(section));
    forall k | k in section
      ensures back[k] == section[k] <==> !section[k].List?
    {
      FieldReloadsIff(fields[k], section[k]);
    }
  }

  /** MAIN: round trip: settings whose fields have their types reload to themselves exactly when no
      tuple field holds a list. */
  lemma {:induction false} ReloadsIffNoLists(d: Schema, s: Settings)
    requires GoodSchema(d) && Shaped(d, s) && s.version >= SCHEMA_VERSION
    requires forall n :: n in d.fields ==> TypesOk(d.fields[n], s.sections[n])
    ensures SettingsFromDict(d, SettingsToDict(s)) == s <==> Clean(d, s)
  {
    var back := SettingsFromDict(d, SettingsToDict(s));
    forall n | n in d.fields
      ensures back.sections[n] == s.sections[n] <==> CleanSection(d.fields[n], s.sections[n])
    {
      SectionReloads(d.fields[n], s.sections[n]);
    }
  }

  lemma {:induction false} LoadedSectionIsClean(fields: Fields, raw: Section)
    requires forall k :: k in fields ==> GoodField(fields[k])
    ensures ShapedSection(fields, SectionFromDict(fields, raw))
    ensures CleanSection(fields, SectionFromDict(fields, raw))
  {
    var section := SectionFromDict(fields, raw);
    forall k | k in section
      ensures HasType(fields[k].typ, section[k]) && !section[k].List?
    {
      if !fields[k].tuple { ScalarIsKept(fields[k].typ, section[k]); }
    }
  }

  /** Whatever the file holds, what is loaded has the declared types, and tuples where declared. */
  lemma {:induction false} LoadedIsClean(d: Schema, raw: Stored)
    requires GoodSchema(d)
    ensures Clean(d, SettingsFromDict(d, raw))
  {
    forall n | n in d.fields
      ensures ShapedSection(d.fields[n], SettingsFromDict(d, raw).sections[n])
      ensures CleanSection(d.fields[n], SettingsFromDict(d, raw).sections[n])
    {
      LoadedSectionIsClean(d.fields[n], if n in raw.sections then raw.sections[n] else map[]);
    }
  }

  /** What one stored value gives: itself if it has the field's type, a tuple of its items if they
      have it and the field holds tuples, and the default otherwise, as where there is none. */
  lemma {:induction false} LoadedField(d: Schema, raw: Stored, n: string, k: string)
    requires GoodSchema(d) && n in d.fields && k in d.fields[n]
    ensures
      var f, v := d.fields[n][k], SettingsFromDict(d, raw).sections[n][k];
      if n !in raw.sections || k !in raw.sections[n] then v == f.default
      else var stored := raw.sections[n][k];
        && (stored.List? && f.typ.TupleType? ==>
              v == if AllHaveType(f.typ.item, stored.items) then Tuple(stored.items) else f.default)
        && (!(stored.List? && f.typ.TupleType?) ==> v == if HasType(f.typ, stored) then stored else f.default)
  {
  }

  // ---- updates ---------------------------------------------------------------------------------

  predicate IsNumber(v: Value) { v.Bool? || v.Int? || v.Float? }

  function NumberOf(v: Value): real
    requires IsNumber(v)
  {
    match v
    case Bool(b) => if b then 1.0 else 0.0
    case Int(n) => n as real
    case Float(x) => x
  }

  /** What JSON can hold. */
  predicate IsJson(v: Value)
  {
    !v.Tuple? && (v.List? ==> AllJson(v.items))
  }

  predicate AllJson(vs: seq<Value>) { |vs| == 0 || (IsJson(vs[0]) && AllJson(vs[1..])) }

  /** What is stored is JSON: lists in place of tuples, at every depth, and nothing else changed. */
  lemma {:induction false} StoredIsJson(v: Value)
    ensures IsJson(JsonOf(v)) && (IsJson(v) ==> JsonOf(v) == v)
    ensures v.Tuple? ==> JsonOf(v) == JsonOf(List(v.items))
    ensures JsonOf(v).List? <==> v.List? || v.Tuple?
  {
    if v.List? || v.Tuple? { StoredItemsAreJson(v.items); }
  }

  lemma {:induction false} StoredItemsAreJson(vs: seq<Value>)
    ensures AllJson(JsonAll(vs)) && (AllJson(vs) ==> JsonAll(vs) == vs)
    ensures forall i :: 0 <= i < |vs| ==> JsonAll(vs)[i] == JsonOf(vs[i])
  {
    if |vs| > 0 {
      StoredIsJson(vs[0]);
      StoredItemsAreJson(vs[1..]);
    }
  }

  /** Python's ==, which tells numbers of different types apart only by their value. */
  predicate Same(a: Value, b: Value)
  {
    if IsNumber(a) && IsNumber(b) then NumberOf(a) == NumberOf(b)
    else if (a.List? && b.List?) || (a.Tuple? && b.Tuple?) then AllSame(a.items, b.items)
    else a == b
  }

  predicate AllSame(a: seq<Value>, b: seq<Value>)
  {
    |a| == |b| && (|a| == 0 || (Same(a[0], b[0]) && AllSame(a[1..], b[1..])))
  }

  /** Numbers are the same iff their values are; texts and sequences iff they are equal all through,
      and of one kind. */
  lemma {:induction false} SameIff(b: bool, c: bool, m: int, n: int, x: real, s: string, t: string,
      vs: seq<Value>, ws: seq<Value>)
    ensures Same(Int(m), Int(n)) <==> m == n
    ensures Same(Bool(b), Bool(c)) <==> b == c
    ensures Same(Bool(b), Int(n)) <==> n == if b then 1 else 0
    ensures Same(Int(m), Float(x)) <==> m as real == x
    ensures Same(Str(s), Str(t)) <==> s == t
    ensures !Same(Str(s), Int(n)) && !Same(List(vs), Tuple(ws)) && !Same(Null, Int(n)) && !Same(Null, Str(s))
    ensures Same(List(vs), List(ws)) <==> |vs| == |ws| && forall i :: 0 <= i < |vs| ==> Same(vs[i], ws[i])
    ensures Same(Tuple(vs), Tuple(ws)) <==> Same(List(vs), List(ws))
  {
    AllSameIff(vs, ws);
  }

  lemma {:induction false} AllSameIff(vs: seq<Value>, ws: seq<Value>)
    ensures AllSame(vs, ws) <==> |vs| == |ws| && forall i :: 0 <= i < |vs| ==> Same(vs[i], ws[i])
  {
    if |vs| == |ws| > 0 {
      AllSameIff(vs[1..], ws[1..]);
      assert forall i :: 0 < i < |vs| ==> vs[i] == vs[1..][i - 1] && ws[i] == ws[1..][i - 1];
    }
  }

  predicate SameSection(a: Section, b: Section)
  {
    a.Keys == b.Keys && forall k :: k in a.Keys ==> Same(a[k], b[k])
  }

  predicate SectionTypesOk(fields: Fields, section: Section)
    requires fields.Keys == section.Keys
  {
    forall k :: k in fields.Keys ==> HasType(fields[k].typ, section[k])
  }

  /** validate() of a section finds nothing: types first, values only when the types are right. */
  predicate ValidSection(d: Schema, n: string, section: Section)
    requires n in d.fields && d.fields[n].Keys == section.Keys
  {
    SectionTypesOk(d.fields[n], section) && d.check(n, section)
  }

  predicate Falsy(v: Value)
  {
    match v
    case Null => true
    case Bool(b) => !b
    case Int(n) => n == 0
    case Float(x) => x == 0.0
    case Str(s) => |s| == 0
    case List(items) => |items| == 0
    case Tuple(items) => |items| == 0
    case Object => false
  }

  ghost function Secret(s: Settings): Value
  {
    if AUTH in s.sections && SECRET in s.sections[AUTH] then s.sections[AUTH][SECRET] else Null
  }

  /** The sections that validate() complains about. */
  ghost predicate Broken(d: Schema, s: Settings, n: string)
    requires Shaped(d, s)
  {
    n in d.fields && !ValidSection(d, n, s.sections[n])
  }

  /** What update accepts: every section it sees as changed is valid, and there is a secret. */
  ghost predicate Accepted(d: Schema, was: Settings, next: Settings)
    requires Shaped(d, was) && Shaped(d, next)
  {
    && (forall n :: n in d.fields && !SameSection(next.sections[n], was.sections[n]) ==>
          && (forall k :: k in d.fields[n] ==> HasType(d.fields[n][k].typ, next.sections[n][k]))
          && d.check(n, next.sections[n]))
    && !Falsy(Secret(next))
  }

  /** A mutation that puts only values of the declared type into fields. */
  ghost predicate WellTyped(d: Schema, was: Settings, next: Settings)
    requires Shaped(d, was) && Shaped(d, next)
  {
    forall n, k :: n in d.fields && k in d.fields[n] ==>
      next.sections[n][k] == was.sections[n][k] || HasType(d.fields[n][k].typ, next.sections[n][k])
  }

  /** Value checks do not tell apart what Python calls equal. */
  ghost predicate ChecksRespectEquality(d: Schema)
  {
    forall n, a, b :: n in d.fields && SameSection(a, b) ==> d.check(n, a) == d.check(n, b)
  }

  /** MAIN: an accepted update breaks no section, whether or not it changed it: the sections that are
      not checked again were already broken, or are not broken now. */
  lemma {:induction false} BrokenNeverGrows(d: Schema, was: Settings, next: Settings, n: string)
    requires GoodSchema(d) && Shaped(d, was) && Shaped(d, next) && ChecksRespectEquality(d)
    requires Accepted(d, was, next) && WellTyped(d, was, next)
    ensures Broken(d, next, n) ==> Broken(d, was, n)
  {
    if Broken(d, next, n) {
      var a, b := next.sections[n], was.sections[n];
      assert SameSection(a, b);
      if SectionTypesOk(d.fields[n], b) {
        assert SectionTypesOk(d.fields[n], a) by {
          forall k | k in d.fields[n].Keys
            ensures HasType(d.fields[n][k].typ, a[k])
          {
            assert k in d.fields[n];
          }
        }
        assert d.check(n, a) == d.check(n, b);
      }
    }
  }

  /** The same number as another of Python's number types. */
  predicate OtherNumber(a: Value, b: Value)
  {
    IsNumber(a) && IsNumber(b) && NumberOf(a) == NumberOf(b) && a != b
  }

  /** A field that had its type and has lost it to an equal value. */
  predicate Retyped(f: Field, a: Value, b: Value)
  {
    Same(b, a) && HasType(f.typ, a) && !HasType(f.typ, b)
  }

  /** MAIN: exactly when an accepted update makes a valid section invalid: the section compares
      equal to the old one, so it is not checked, and some field lost its type to an equal value. */
  lemma AcceptedBreaksIff(d: Schema, was: Settings, next: Settings, n: string)
    requires Shaped(d, was) && Shaped(d, next) && ChecksRespectEquality(d) && Accepted(d, was, next)
    ensures Broken(d, next, n) && !Broken(d, was, n)
      <==> && n in d.fields
           && SameSection(next.sections[n], was.sections[n]) && ValidSection(d, n, was.sections[n])
           && (exists k :: k in d.fields[n] && Retyped(d.fields[n][k], was.sections[n][k], next.sections[n][k]))
  {
    if n in d.fields && SameSection(next.sections[n], was.sections[n]) && ValidSection(d, n, was.sections[n]) {
      var a, b := was.sections[n], next.sections[n];
      assert d.check(n, b) == d.check(n, a);
      if !ValidSection(d, n, b) {
        var k :| k in d.fields[n].Keys && !HasType(d.fields[n][k].typ, b[k]);
        assert Same(b[k], a[k]) && HasType(d.fields[n][k].typ, a[k]);
        assert k in d.fields[n] && Retyped(d.fields[n][k], a[k], b[k]);
      }
    }
  }

  lemma RetypedScalar(t: Type, a: Value, b: Value)
    requires Scalar(t) && HasType(t, a) && !HasType(t, b) && Same(b, a)
    ensures OtherNumber(a, b)
  {
    ScalarIsKept(t, a);
  }

  lemma {:induction false} RetypedItem(t: Type, a: seq<Value>, b: seq<Value>) returns (i: nat)
    requires Scalar(t) && AllHaveType(t, a) && !AllHaveType(t, b) && AllSame(b, a)
    ensures i < |a| == |b| && HasType(t, a[i]) && !HasType(t, b[i]) && OtherNumber(a[i], b[i])
  {
    if HasType(t, b[0]) {
      i := RetypedItem(t, a[1..], b[1..]);
      i := i + 1;
    } else {
      RetypedScalar(t, a[0], b[0]);
      i := 0;
    }
  }

  /** Only a number can do that, alone or as an item of a tuple field: a number of a type that
      the field does not take, equal to the one it held. */
  lemma RetypedIsANumber(f: Field, a: Value, b: Value)
    requires GoodField(f) && Retyped(f, a, b)
    ensures if !f.tuple then OtherNumber(a, b)
      else ((a.List? && b.List?) || (a.Tuple? && b.Tuple?)) && |a.items| == |b.items|
           && exists i :: 0 <= i < |a.items| && OtherNumber(a.items[i], b.items[i])
  {
    if f.tuple {
      var i := RetypedItem(f.typ.item, a.items, b.items);
    } else {
      RetypedScalar(f.typ, a, b);
    }
  }

  /** A boolean field that gets the number equal to it is not checked again: the update goes
      through, and the file reloads to something else. */
  lemma {:induction false} EqualNumberSlipsThrough(d: Schema, s: Settings, n: string, k: string)
    requires GoodSchema(d) && Clean(d, s) && !Falsy(Secret(s))
    requires n in d.fields && k in d.fields[n] && d.fields[n][k].typ.BoolType? && n != AUTH
    ensures
      var v := Int(if s.sections[n][k].b then 1 else 0);
      var next := s.(sections := s.sections[n := s.sections[n][k := v]]);
      Accepted(d, s, next) && Broken(d, next, n) && SettingsFromDict(d, SettingsToDict(next)) != next
  {
    var section := s.sections[n];
    var v := Int(if section[k].b then 1 else 0);
    var changed := section[k := v];
    var next := s.(sections := s.sections[n := changed]);
    assert SameSection(changed, section) by { SameAsItself(section); }
    forall m | m in d.fields && m != n
      ensures SameSection(next.sections[m], s.sections[m])
    {
      SameAsItself(s.sections[m]);
    }
    assert Secret(next) == Secret(s);
    assert !HasType(d.fields[n][k].typ, changed[k]);
    assert SettingsFromDict(d, SettingsToDict(next)).sections[n][k] != v;
  }

  lemma {:induction false} SameAsItself(section: Section)
    ensures SameSection(section, section)
  {
    forall k | k in section
      ensures Same(section[k], section[k])
    {
      SameValue(section[k]);
    }
  }

  lemma {:induction false} SameValue(v: Value)
    ensures Same(v, v)
  {
    if v.List? || v.Tuple? { SameValues(v.items); }
  }

  lemma {:induction false} SameValues(vs: seq<Value>)
    ensures AllSame(vs, vs)
  {
    if |vs| > 0 {
      SameValue(vs[0]);
      SameValues(vs[1..]);
    }
  }
}
