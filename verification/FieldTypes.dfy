/** The types of settings fields (blackvuesync/settings.py): the annotation texts that the field
    checks interpret, and the types these texts stand for. */
module FieldTypes {
  import opened Common

  /** Values of a settings field, or of the JSON it is stored as; `Object` is any JSON object. */
  datatype Value =
    | Null
    | Bool(b: bool)
    | Int(n: int)
    | Float(x: real)
    | Str(s: string)
    | List(items: seq<Value>)
    | Tuple(items: seq<Value>)
    | Object

  /** `LiteralType` is a Literal of strings; `body` is the text between its brackets. */
  datatype Type =
    | NoneType
    | BoolType
    | IntType
    | FloatType
    | StrType
    | LiteralType(body: string)
    | TupleType(item: Type)
    | UnionType(first: Type, second: Type)

  /** Whether a value has a type; a list passes for a tuple, a bool never for a number. */
  predicate HasType(t: Type, v: Value)
    decreases t, 0
  {
    match t
    case NoneType => v.Null?
    case BoolType => v.Bool?
    case IntType => v.Int?
    case FloatType => v.Int? || v.Float?
    case StrType => v.Str?
    case LiteralType(_) => v.Str?
    case TupleType(item) => (v.List? || v.Tuple?) && AllHaveType(item, v.items)
    case UnionType(a, b) => HasType(a, v) || HasType(b, v)
  }

  predicate AllHaveType(t: Type, vs: seq<Value>)
    decreases t, 1, |vs|
  {
    |vs| == 0 || (HasType(t, vs[0]) && AllHaveType(t, vs[1..]))
  }

  /** The annotation of a type, as it stands in the source. */
  function Show(t: Type): string
  {
    match t
    case NoneType => "None"
    case BoolType => "bool"
    case IntType => "int"
    case FloatType => "float"
    case StrType => "str"
    case LiteralType(body) => "Literal[" + body + "]"
    case TupleType(item) => "tuple[" + Show(item) + ", ...]"
    case UnionType(a, b) => Show(a) + " | " + Show(b)
  }

  /** Literals hold no brackets; a union is written from left to right. */
  predicate WellFormed(t: Type)
  {
    match t
    case LiteralType(body) => '[' !in body && ']' !in body
    case TupleType(item) => WellFormed(item)
    case UnionType(a, b) => !a.UnionType? && WellFormed(a) && WellFormed(b)
    case _ => true
  }

  // ---- the interpretation of the text ----------------------------------------------------------

  function Deeper(depth: int, c: char): int
  {
    if c == '[' then depth + 1 else if c == ']' then depth - 1 else depth
  }

  /** The parts between separators that stand outside all brackets, before stripping. */
  function SplitFrom(s: string, sep: char, depth: int): (parts: seq<string>)
    ensures |parts| > 0
  {
    if |s| == 0 then [""]
    else
      var d := Deeper(depth, s[0]);
      var rest := SplitFrom(s[1..], sep, d);
      if s[0] == sep && d == 0 then [""] + rest else [[s[0]] + rest[0]] + rest[1..]
  }

  function Strip(s: string): string
  {
    if |s| > 0 && s[0] == ' ' then Strip(s[1..])
    else if |s| > 0 && s[|s| - 1] == ' ' then Strip(s[..|s| - 1])
    else s
  }

  function StripAll(parts: seq<string>): (r: seq<string>)
    ensures |r| == |parts|
  {
    if |parts| == 0 then [] else [Strip(parts[0])] + StripAll(parts[1..])
  }

  function SplitTopLevel(s: string, sep: char): (parts: seq<string>)
    ensures |parts| > 0
  {
    StripAll(SplitFrom(s, sep, 0))
  }

  predicate StartsWith(s: string, p: string) { |s| >= |p| && s[..|p|] == p }

  predicate EndsWith(s: string, p: string) { |s| >= |p| && s[|s| - |p|..] == p }

  function Total(parts: seq<string>): nat
  {
    if |parts| == 0 then 0 else |parts[0]| + 1 + Total(parts[1..])
  }

  lemma {:induction false} SplitTotal(s: string, sep: char, depth: int)
    ensures Total(SplitFrom(s, sep, depth)) == |s| + 1
  {
    if |s| > 0 {
      var d := Deeper(depth, s[0]);
      var rest := SplitFrom(s[1..], sep, d);
      SplitTotal(s[1..], sep, d);
      if s[0] == sep && d == 0 {
        assert ([""] + rest)[1..] == rest;
      } else {
        assert ([[s[0]] + rest[0]] + rest[1..])[1..] == rest[1..];
      }
    }
  }

  lemma {:induction false} StripShortens(s: string)
    ensures |Strip(s)| <= |s|
  {
    if |s| > 0 && s[0] == ' ' { StripShortens(s[1..]); }
    else if |s| > 0 && s[|s| - 1] == ' ' { StripShortens(s[..|s| - 1]); }
  }

  lemma {:induction false} StripAllShortens(parts: seq<string>)
    ensures Total(StripAll(parts)) <= Total(parts)
  {
    if |parts| > 0 {
      StripShortens(parts[0]);
      StripAllShortens(parts[1..]);
      assert StripAll(parts)[1..] == StripAll(parts[1..]);
    }
  }

  lemma {:induction false} SplitShortens(s: string, sep: char)
    ensures Total(SplitTopLevel(s, sep)) <= |s| + 1
  {
    SplitTotal(s, sep, 0);
    StripAllShortens(SplitFrom(s, sep, 0));
  }

  /** _type_matches: None where it raises TypeError. */
  function TextMatches(s: string, v: Value): Option<bool>
    decreases |s|, 1, 0
  {
    var options := SplitTopLevel(s, '|');
    SplitShortens(s, '|');
    if |options| > 1 then
      AnyMatches(options, v, |s|)
    else
      OneMatches(options[0], v)
  }

  /** any(), which stops at the first match. */
  function AnyMatches(options: seq<string>, v: Value, bound: nat): Option<bool>
    requires |options| > 1 ==> Total(options) <= bound + 1
    requires |options| == 1 ==> Total(options) <= bound
    decreases bound, 0, |options|
  {
    if |options| == 0 then Some(false) else
    assert Total(options[1..]) <= Total(options);
    var r := TextMatches(options[0], v);
    if r == Some(false) then AnyMatches(options[1..], v, bound) else r
  }

  function OneMatches(a: string, v: Value): Option<bool>
    decreases |a|, 0, 0
  {
    if a == "None" then Some(v.Null?)
    else if a == "bool" then Some(v.Bool?)
    else if a == "int" then Some(v.Int?)
    else if a == "float" then Some(v.Int? || v.Float?)
    else if a == "str" then Some(v.Str?)
    else if StartsWith(a, "Literal[") then Some(v.Str?)
    else if StartsWith(a, "tuple[") && EndsWith(a, ", ...]") && |a| >= 12 then
      if v.List? || v.Tuple? then AllMatch(a[6..|a| - 6], v.items) else Some(false)
    else None
  }

  /** A text that begins like a tuple's is one only if it also ends like one. */
  lemma {:induction false} OtherTuplesRaise(rest: string, v: Value)
    requires forall item: string :: rest != item + ", ...]"
    ensures OneMatches("tuple[" + rest, v) == None
  {
    var a := "tuple[" + rest;
    assert a[0] == 't' && a[5] == '[';
    assert !StartsWith(a, "Literal[") by { if |a| >= 8 { assert a[..8][0] == 't'; } }
    if |rest| >= 6 { assert rest == rest[..|rest| - 6] + a[|a| - 6..]; }
  }

  /** all(), which stops at the first mismatch. */
  function AllMatch(item: string, vs: seq<Value>): Option<bool>
    decreases |item|, 2, |vs|
  {
    if |vs| == 0 then Some(true) else
    var r := TextMatches(item, vs[0]);
    if r == Some(true) then AllMatch(item, vs[1..]) else r
  }

  /** The parts, with some text before the first. */
  function Glued(text: string, parts: seq<string>): (r: seq<string>)
    requires |parts| > 0
    ensures |r| == |parts|
  {
    [text + parts[0]] + parts[1..]
  }

  lemma {:induction false} GlueNothing(parts: seq<string>)
    requires |parts| > 0
    ensures Glued("", parts) == parts
  {
    assert "" + parts[0] == parts[0];
  }

  lemma {:induction false} GlueOnEmpty(text: string, parts: seq<string>)
    ensures Glued(text, [""] + parts) == [text] + parts
  {
    assert text + "" == text;
  }

  lemma {:induction false} StripAllCons(first: string, parts: seq<string>)
    ensures StripAll([first] + parts) == [Strip(first)] + StripAll(parts)
  {
    assert ([first] + parts)[1..] == parts;
  }

  /** The loop of _split_top_level. */
  method SplitLoop(annotation: string, separator: char) returns (parts: seq<string>)
    ensures parts == SplitTopLevel(annotation, separator)
  {
    parts := [];
    var depth, current := 0, "";
    GlueNothing(SplitFrom(annotation, separator, 0));
    ghost var left := annotation;
    for i := 0 to |annotation|
      invariant left == annotation[i..]
      invariant SplitTopLevel(annotation, separator)
             == parts + StripAll(Glued(current, SplitFrom(left, separator, depth)))
    {
      var c := annotation[i];
      LoopStep(current, left, separator, depth);
      left := left[1..];
      if c == '[' {
        depth := depth + 1;
      } else if c == ']' {
        depth := depth - 1;
      }
      if c == separator && depth == 0 {
        parts := parts + [Strip(current)];
        current := "";
      } else {
        current := current + [c];
      }
    }
    GlueOnEmpty(current, []);
    StripAllCons(current, []);
    parts := parts + [Strip(current)];
  }

  lemma {:induction false} LoopStep(current: string, s: string, sep: char, depth: int)
    requires |s| > 0
    ensures
      var d := Deeper(depth, s[0]);
      var tail := SplitFrom(s[1..], sep, d);
      StripAll(Glued(current, SplitFrom(s, sep, depth)))
      == if s[0] == sep && d == 0 then [Strip(current)] + StripAll(Glued("", tail))
         else StripAll(Glued(current + [s[0]], tail))
  {
    var tail := SplitFrom(s[1..], sep, Deeper(depth, s[0]));
    GlueNothing(tail);
    GlueOnEmpty(current, tail);
    StripAllCons(current, tail);
    assert current + ([s[0]] + tail[0]) == (current + [s[0]]) + tail[0];
  }

  // ---- the text means the type -----------------------------------------------------------------

  /** Reading `s` from depth `from`, the depth after each character is at least `least`. */
  predicate Above(s: string, from: int, least: int)
  {
    |s| == 0 || (Deeper(from, s[0]) >= least && Above(s[1..], Deeper(from, s[0]), least))
  }

  function DepthAfter(s: string, from: int): int
  {
    if |s| == 0 then from else DepthAfter(s[1..], Deeper(from, s[0]))
  }

  /** No separator stands outside all brackets. */
  predicate NoneOutside(s: string, sep: char, from: int)
  {
    |s| == 0 || (!(s[0] == sep && Deeper(from, s[0]) == 0) && NoneOutside(s[1..], sep, Deeper(from, s[0])))
  }

  lemma {:induction false} AboveShifts(s: string, from: int, least: int, k: int)
    requires Above(s, from, least)
    ensures Above(s, from + k, least + k) && DepthAfter(s, from + k) == DepthAfter(s, from) + k
  {
    if |s| > 0 { AboveShifts(s[1..], Deeper(from, s[0]), least, k); }
  }

  lemma {:induction false} InsideIsNone(s: string, sep: char, from: int)
    requires Above(s, from, 1)
    ensures NoneOutside(s, sep, from)
  {
    if |s| > 0 { InsideIsNone(s[1..], sep, Deeper(from, s[0])); }
  }

  lemma {:induction false} Appended(a: string, b: string, sep: char, from: int, least: int)
    ensures DepthAfter(a + b, from) == DepthAfter(b, DepthAfter(a, from))
    ensures Above(a, from, least) && Above(b, DepthAfter(a, from), least) ==> Above(a + b, from, least)
    ensures NoneOutside(a, sep, from) && NoneOutside(b, sep, DepthAfter(a, from)) ==> NoneOutside(a + b, sep, from)
  {
    if |a| == 0 {
      assert a + b == b;
    } else {
      var c := a + b;
      assert c[1..] == a[1..] + b && c[0] == a[0];
      Appended(a[1..], b, sep, Deeper(from, a[0]), least);
    }
  }

  /** Text without brackets keeps the depth. */
  lemma {:induction false} PlainText(s: string, from: int)
    requires '[' !in s && ']' !in s
    ensures Above(s, from, from) && DepthAfter(s, from) == from
  {
    if |s| > 0 {
      assert s[0] in s && forall c :: c in s[1..] ==> c in s;
      PlainText(s[1..], from);
    }
  }

  /** Text that opens a bracket, stays inside it, and closes it at the end. */
  lemma {:induction false} Bracketed(name: string, body: string)
    requires '[' !in name && ']' !in name && '|' !in name
    requires Above(body, 0, 0) && DepthAfter(body, 0) == 0
    ensures
      var s := name + "[" + body + "]";
      Above(s, 0, 0) && DepthAfter(s, 0) == 0 && NoneOutside(s, '|', 0)
  {
    PlainText(name, 0);
    NoSeparator(name, '|', 0);
    var open, inside := name + "[", name + "[" + body;
    Appended(name, "[", '|', 0, 0);
    AboveShifts(body, 0, 0, 1);
    InsideIsNone(body, '|', 1);
    AboveLower(body, 1, 1, 0);
    Appended(open, body, '|', 0, 0);
    Appended(inside, "]", '|', 0, 0);
  }

  lemma {:induction false} AboveLower(s: string, from: int, least: int, lower: int)
    requires Above(s, from, least) && lower <= least
    ensures Above(s, from, lower)
  {
    if |s| > 0 { AboveLower(s[1..], Deeper(from, s[0]), least, lower); }
  }

  lemma {:induction false} NoSeparator(s: string, sep: char, from: int)
    requires sep !in s
    ensures NoneOutside(s, sep, from)
  {
    if |s| > 0 {
      assert s[0] in s && forall c :: c in s[1..] ==> c in s;
      NoSeparator(s[1..], sep, Deeper(from, s[0]));
    }
  }

  ghost predicate Enclosed(s: string)
  {
    && Above(s, 0, 0) && DepthAfter(s, 0) == 0
    && |s| > 0 && s[0] != ' ' && s[|s| - 1] != ' '
  }

  /** The text of a type closes its brackets; outside a union no bar stands outside them. */
  lemma {:induction false} ShowShape(t: Type)
    requires WellFormed(t)
    ensures Enclosed(Show(t))
    ensures !t.UnionType? ==> NoneOutside(Show(t), '|', 0)
  {
    match t
    case NoneType => PlainShape("None");
    case BoolType => PlainShape("bool");
    case IntType => PlainShape("int");
    case FloatType => PlainShape("float");
    case StrType => PlainShape("str");
    case LiteralType(body) =>
      PlainText(body, 0);
      BracketedShape("Literal", body);
      assert "Literal[" + body + "]" == "Literal" + "[" + body + "]";
    case TupleType(item) =>
      ShowShape(item);
      TupleShape(Show(item));
    case UnionType(a, b) =>
      ShowShape(a);
      ShowShape(b);
      UnionShape(Show(a), Show(b));
  }

  lemma {:induction false} BracketedShape(name: string, body: string)
    requires |name| > 0 && name[0] != ' ' && '[' !in name && ']' !in name && '|' !in name
    requires Above(body, 0, 0) && DepthAfter(body, 0) == 0
    ensures Enclosed(name + "[" + body + "]") && NoneOutside(name + "[" + body + "]", '|', 0)
  {
    Bracketed(name, body);
  }

  lemma {:induction false} TupleShape(item: string)
    requires Enclosed(item)
    ensures Enclosed("tuple[" + item + ", ...]") && NoneOutside("tuple[" + item + ", ...]", '|', 0)
  {
    PlainText(", ...", 0);
    Appended(item, ", ...", '|', 0, 0);
    BracketedShape("tuple", item + ", ...");
    assert "tuple[" + item + ", ...]" == "tuple" + "[" + (item + ", ...") + "]";
  }

  lemma {:induction false} UnionShape(a: string, b: string)
    requires Enclosed(a) && Enclosed(b)
    ensures Enclosed(a + " | " + b)
  {
    PlainText(" | ", 0);
    Appended(a, " | ", '|', 0, 0);
    Appended(a + " | ", b, '|', 0, 0);
  }

  lemma {:induction false} PlainShape(s: string)
    requires |s| > 0 && s[0] != ' ' && s[|s| - 1] != ' ' && '[' !in s && ']' !in s && '|' !in s
    ensures Enclosed(s) && NoneOutside(s, '|', 0)
  {
    PlainText(s, 0);
    NoSeparator(s, '|', 0);
  }

  /** Text without a separator outside its brackets goes to the first part as it is. */
  lemma {:induction false} SplitAfter(a: string, b: string, sep: char, from: int)
    requires NoneOutside(a, sep, from)
    ensures SplitFrom(a + b, sep, from) == Glued(a, SplitFrom(b, sep, DepthAfter(a, from)))
  {
    if |a| == 0 {
      assert a + b == b;
      GlueNothing(SplitFrom(b, sep, from));
    } else {
      var c, d := a + b, Deeper(from, a[0]);
      assert c[1..] == a[1..] + b && c[0] == a[0];
      SplitAfter(a[1..], b, sep, d);
      var tail := SplitFrom(b, sep, DepthAfter(a, from));
      assert [a[0]] + (a[1..] + tail[0]) == a + tail[0];
    }
  }

  /** The options of a union, from left to right. */
  function Options(t: Type): (r: seq<Type>)
    ensures |r| > 0
  {
    if t.UnionType? then [t.first] + Options(t.second) else [t]
  }

  function ShowAll(ts: seq<Type>): (r: seq<string>)
    ensures |r| == |ts|
  {
    if |ts| == 0 then [] else [Show(ts[0])] + ShowAll(ts[1..])
  }

  lemma {:induction false} StripEnds(s: string)
    requires |s| > 0 && s[0] != ' ' && s[|s| - 1] != ' '
    ensures Strip(s) == s && Strip(" " + s) == s && Strip(s + " ") == s && Strip(" " + s + " ") == s
  {
    assert (" " + s)[1..] == s && (s + " ")[..|s|] == s && (" " + s + " ")[1..] == s + " ";
  }

  /** Text with no bar outside its brackets is one part. */
  lemma {:induction false} SplitOne(s: string, lead: string)
    requires Enclosed(s) && NoneOutside(s, '|', 0) && (lead == "" || lead == " ")
    ensures StripAll(SplitFrom(lead + s, '|', 0)) == [s]
  {
    var all := lead + s;
    Appended(lead, s, '|', 0, 0);
    SplitAfter(all, "", '|', 0);
    assert all + "" == all && "" + s == s && [""] + [] == [""] && [all] + [] == [all];
    GlueOnEmpty(all, []);
    StripAllCons(all, []);
    StripEnds(s);
    assert StripAll(SplitFrom(all, '|', 0)) == [Strip(all)] + [];
  }

  lemma {:induction false} BarAt(rest: string, depth: int)
    requires depth == 0
    ensures SplitFrom("|" + rest, '|', depth) == [""] + SplitFrom(rest, '|', 0)
  {
    assert ("|" + rest)[1..] == rest;
  }

  /** A bar between two texts separates the first from the parts of the second. */
  lemma {:induction false} SplitBar(a: string, b: string, lead: string)
    requires Enclosed(a) && NoneOutside(a, '|', 0) && (lead == "" || lead == " ")
    ensures StripAll(SplitFrom(lead + (a + " | " + b), '|', 0)) == [a] + StripAll(SplitFrom(" " + b, '|', 0))
  {
    var head, rest := lead + a + " ", " " + b;
    assert lead + (a + " | " + b) == head + ("|" + rest);
    HeadPart(a, lead);
    SplitAfter(head, "|" + rest, '|', 0);
    BarAt(rest, DepthAfter(head, 0));
    GlueOnEmpty(head, SplitFrom(rest, '|', 0));
    StripAllCons(head, SplitFrom(rest, '|', 0));
  }

  lemma {:induction false} HeadPart(a: string, lead: string)
    requires Enclosed(a) && NoneOutside(a, '|', 0) && (lead == "" || lead == " ")
    ensures NoneOutside(lead + a + " ", '|', 0) && DepthAfter(lead + a + " ", 0) == 0
    ensures Strip(lead + a + " ") == a
  {
    Appended(lead, a, '|', 0, 0);
    Appended(lead + a, " ", '|', 0, 0);
    StripEnds(a);
    assert "" + a == a;
  }

  /** The top-level split of a type's text gives the texts of its options, also when a blank
      stands before it. */
  lemma {:induction false} SplitGivesOptions(t: Type, lead: string)
    requires WellFormed(t) && (lead == "" || lead == " ")
    ensures StripAll(SplitFrom(lead + Show(t), '|', 0)) == ShowAll(Options(t))
  {
    ShowShape(t);
    if t.UnionType? {
      ShowShape(t.first);
      SplitBar(Show(t.first), Show(t.second), lead);
      SplitGivesOptions(t.second, " ");
      assert ([t.first] + Options(t.second))[1..] == Options(t.second);
    } else {
      SplitOne(Show(t), lead);
      assert ([t])[1..] == [];
    }
  }

  predicate AnyType(ts: seq<Type>, v: Value)
  {
    |ts| > 0 && (HasType(ts[0], v) || AnyType(ts[1..], v))
  }

  lemma {:induction false} OptionsMean(t: Type, v: Value)
    ensures AnyType(Options(t), v) <==> HasType(t, v)
  {
    if t.UnionType? {
      OptionsMean(t.second, v);
      assert ([t.first] + Options(t.second))[1..] == Options(t.second);
    } else {
      assert [t][1..] == [];
    }
  }

  /** The members of a union are no unions themselves, and smaller. */
  lemma {:induction false} OptionsShape(t: Type)
    requires WellFormed(t)
    ensures forall o :: o in Options(t) ==> WellFormed(o) && !o.UnionType?
    ensures t.UnionType? ==> |Options(t)| > 1
  {
    if t.UnionType? { OptionsShape(t.second); }
  }

  /** MAIN: _type_matches, run on the text of a type, decides that type, and never raises. */
  lemma {:induction false} TextMeansType(t: Type, v: Value)
    requires WellFormed(t)
    ensures TextMatches(Show(t), v) == Some(HasType(t, v))
    decreases |Show(t)|, 1, 0
  {
    var s := Show(t);
    SplitGivesOptions(t, "");
    assert "" + s == s;
    OptionsShape(t);
    OptionsMean(t, v);
    SplitShortens(s, '|');
    if t.UnionType? {
      AnyMeans(Options(t), v, |s|);
    } else {
      OneMeans(t, v);
    }
  }

  lemma {:induction false} AnyMeans(ts: seq<Type>, v: Value, bound: nat)
    requires forall o :: o in ts ==> WellFormed(o)
    requires |ts| > 1 ==> Total(ShowAll(ts)) <= bound + 1
    requires |ts| == 1 ==> Total(ShowAll(ts)) <= bound
    ensures AnyMatches(ShowAll(ts), v, bound) == Some(AnyType(ts, v))
    decreases bound, 0, |ts|
  {
    if |ts| > 0 {
      assert ShowAll(ts)[1..] == ShowAll(ts[1..]);
      TextMeansType(ts[0], v);
      AnyMeans(ts[1..], v, bound);
    }
  }

  lemma {:induction false} OneMeans(t: Type, v: Value)
    requires WellFormed(t) && !t.UnionType?
    ensures OneMatches(Show(t), v) == Some(HasType(t, v))
    decreases |Show(t)|, 0, 0
  {
    match t
    case LiteralType(body) => LiteralText(body, v);
    case TupleType(item) =>
      TupleText(Show(item), v);
      if v.List? || v.Tuple? { AllMean(item, v.items); }
    case _ =>
  }

  lemma {:induction false} LiteralText(body: string, v: Value)
    ensures OneMatches("Literal[" + body + "]", v) == Some(v.Str?)
  {
    var a := "Literal[" + body + "]";
    assert a[..8] == "Literal[";
    assert a[0] == 'L';
  }

  lemma {:induction false} TupleText(item: string, v: Value)
    ensures OneMatches("tuple[" + item + ", ...]", v)
      == if v.List? || v.Tuple? then AllMatch(item, v.items) else Some(false)
  {
    var a := "tuple[" + item + ", ...]";
    assert a[..6] == "tuple[" && a[|a| - 6..] == ", ...]" && a[6..|a| - 6] == item;
    assert a[0] == 't';
  }

  lemma {:induction false} AllMean(item: Type, vs: seq<Value>)
    requires WellFormed(item)
    ensures AllMatch(Show(item), vs) == Some(AllHaveType(item, vs))
    decreases |Show(item)|, 2, |vs|
  {
    if |vs| > 0 {
      TextMeansType(item, vs[0]);
      AllMean(item, vs[1..]);
    }
  }
}
