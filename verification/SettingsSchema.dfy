/** The schema of the settings (blackvuesync/settings.py): its sections, the types and defaults of
    their fields. The value checks of the sections are a parameter. */
module SettingsSchema {
  import opened Common
  import opened FieldTypes
  import opened Settings

  function Text(default: string): Field { Field(StrType, Str(default), false) }

  function OptionalText(): Field { Field(UnionType(StrType, NoneType), Null, false) }

  function Number(default: int): Field { Field(IntType, Int(default), false) }

  function Seconds(default: real): Field { Field(FloatType, Float(default), false) }

  function Flag(default: bool): Field { Field(BoolType, Bool(default), false) }

  /** The words of a Literal, as its annotation lists them. */
  function Listed(words: seq<string>): string
  {
    if |words| == 0 then ""
    else if |words| == 1 then "\"" + words[0] + "\""
    else "\"" + words[0] + "\", " + Listed(words[1..])
  }

  function OneOf(words: seq<string>): Field
    requires |words| > 0
  {
    Field(LiteralType(Listed(words)), Str(words[0]), false)
  }

  function Texts(): Field { Field(TupleType(StrType), Tuple([]), true) }

  function SomeOf(words: seq<string>): Field
  {
    Field(TupleType(LiteralType(Listed(words))), Tuple([]), true)
  }

  function Priorities(): seq<string> { ["date", "rdate", "type"] }

  function Groupings(): seq<string> { ["none", "daily", "weekly", "monthly", "yearly"] }

  function MetadataKinds(): seq<string> { ["t", "3", "g"] }

  function LogFormats(): seq<string> { ["text", "json"] }

  function JourneyModes(): seq<string> { ["progressive", "full"] }

  function SpeedUnits(): seq<string> { ["kmh", "mph"] }

  function AuthModes(): seq<string> { ["login", "none", "proxy"] }

  function ConnectionFields(): Fields
  {
    map["address" := Text(""), "timeout_seconds" := Seconds(10.0)]
  }

  function ScheduleFields(): Fields
  {
    map["cron_expression" := Text("*/15 * * * *"),
        "timezone" := Text("UTC"),
        "paused" := Flag(false)]
  }

  function SyncFields(): Fields
  {
    map["priority" := OneOf(Priorities()),
        "grouping" := OneOf(Groupings()),
        "include" := Texts(),
        "exclude" := Texts(),
        "retry_failed_after" := Text("1d"),
        "skip_metadata" := SomeOf(MetadataKinds()),
        "affinity_key" := OptionalText()]
  }

  function RetentionFields(): Fields
  {
    map["keep" := Text("2w"), "max_used_disk_percent" := Number(90)]
  }

  function LoggingFields(): Fields
  {
    map["verbose" := Number(0),
        "quiet" := Flag(false),
        "format" := OneOf(LogFormats()),
        "file_max_bytes" := Number(10485760),
        "file_backup_count" := Number(5),
        "ring_buffer_capacity" := Number(1000)]
  }

  function MetricsFields(): Fields
  {
    map["file" := OptionalText(),
        "pushgateway_url" := OptionalText(),
        "job" := Text("blackvuesync"),
        "instance" := OptionalText(),
        "state_file" := Text("/config/metrics-state.json")]
  }

  function StatsFields(): Fields { map["retention_days" := Number(365)] }

  function ViewerFields(): Fields
  {
    map["journey_mode" := OneOf(JourneyModes()),
        "speed_unit" := OneOf(SpeedUnits())]
  }

  function WebFields(): Fields
  {
    map["port" := Number(8080), "session_lifetime_hours" := Number(24)]
  }

  function AuthFields(): Fields
  {
    map["mode" := OneOf(AuthModes()),
        "username" := Text("admin"),
        "password_hash" := Text(""),
        "session_secret" := Text(""),
        "trusted_proxies" := Texts(),
        "proxy_user_header" := Text("X-Remote-User")]
  }

  function SystemFields(): Fields
  {
    map["destination" := Text("/recordings"), "dry_run" := Flag(false)]
  }

  function AllFields(): map<string, Fields>
  {
    map["connection" := ConnectionFields(), "schedule" := ScheduleFields(), "sync" := SyncFields(),
        "retention" := RetentionFields(), "logging" := LoggingFields(), "metrics" := MetricsFields(),
        "stats" := StatsFields(), "viewer" := ViewerFields(), "web" := WebFields(), "auth" := AuthFields(),
        "system" := SystemFields()]
  }

  function Names(): seq<string>
  {
    ["connection", "schedule", "sync", "retention", "logging", "metrics",
    "stats", "viewer", "web", "auth", "system"]
  }

  /** The kinds of fields there are. */
  predicate Made(f: Field)
  {
    || (f.typ.StrType? && f.default.Str? && !f.tuple)
    || (f.typ.IntType? && f.default.Int? && !f.tuple)
    || (f.typ.FloatType? && f.default.Float? && !f.tuple)
    || (f.typ.BoolType? && f.default.Bool? && !f.tuple)
    || (f.typ.LiteralType? && WellFormed(f.typ) && f.default.Str? && !f.tuple)
    || f == OptionalText()
    || (f.typ.TupleType? && WellFormed(f.typ) && (f.typ.item.StrType? || f.typ.item.LiteralType?)
        && f.default == Tuple([]) && f.tuple)
  }

  lemma {:induction false} MadeIsGood(f: Field)
    requires Made(f)
    ensures GoodField(f) && WellFormed(f.typ)
  {
  }

  predicate Plain(s: string) { '[' !in s && ']' !in s }

  lemma {:induction false} ListedIsPlain(words: seq<string>)
    requires forall i :: 0 <= i < |words| ==> Plain(words[i])
    ensures Plain(Listed(words))
  {
    if |words| > 1 { ListedIsPlain(words[1..]); }
  }

  lemma {:induction false} SyncLiteralsArePlain()
    ensures Plain(Listed(Priorities())) && Plain(Listed(Groupings())) && Plain(Listed(MetadataKinds()))
  {
    ListedIsPlain(Priorities());
    ListedIsPlain(Groupings());
    ListedIsPlain(MetadataKinds());
  }

  lemma {:induction false} OtherLiteralsArePlain()
    ensures Plain(Listed(LogFormats())) && Plain(Listed(AuthModes()))
    ensures Plain(Listed(JourneyModes())) && Plain(Listed(SpeedUnits()))
  {
    ListedIsPlain(LogFormats());
    ListedIsPlain(AuthModes());
    ListedIsPlain(JourneyModes());
    ListedIsPlain(SpeedUnits());
  }

  ghost predicate AllMade(fields: Fields)
  {
    forall k :: k in fields ==> Made(fields[k])
  }

  lemma {:induction false} SmallSectionsAreMade()
    ensures AllMade(ConnectionFields()) && AllMade(ScheduleFields()) && AllMade(RetentionFields())
    ensures AllMade(StatsFields()) && AllMade(ViewerFields()) && AllMade(WebFields()) && AllMade(SystemFields())
  {
    OtherLiteralsArePlain();
  }

  lemma {:induction false} LargeSectionsAreMade()
    ensures AllMade(SyncFields()) && AllMade(LoggingFields()) && AllMade(MetricsFields()) && AllMade(AuthFields())
  {
    SyncLiteralsArePlain();
    OtherLiteralsArePlain();
  }

  lemma {:induction false} SectionsAreMade(n: string)
    requires n in AllFields()
    ensures AllMade(AllFields()[n])
  {
    SmallSectionsAreMade();
    LargeSectionsAreMade();
  }

  lemma {:induction false} NamesAreSections(n: string)
    ensures n in Names() <==> n in AllFields()
  {
    var names := Names();
    assert names[0] in names && names[1] in names && names[2] in names && names[3] in names;
    assert names[4] in names && names[5] in names && names[6] in names && names[7] in names;
    assert names[8] in names && names[9] in names && names[10] in names;
  }

  lemma {:induction false} SecretField()
    ensures AUTH in AllFields() && SECRET in AllFields()[AUTH] && AllFields()[AUTH][SECRET].typ.StrType?
  {
    assert AllFields()[AUTH] == AuthFields();
  }

  /** The source's schema is one that the results about settings are for. */
  lemma {:induction false} SchemaIsGood(check: (string, Section) -> bool)
    ensures GoodSchema(Schema(Names(), AllFields(), check))
  {
    forall n
      ensures n in Names() <==> n in AllFields()
    {
      NamesAreSections(n);
    }
    forall n, k | n in AllFields() && k in AllFields()[n]
      ensures GoodField(AllFields()[n][k])
    {
      SectionsAreMade(n);
      MadeIsGood(AllFields()[n][k]);
    }
    SecretField();
  }

  /** The check of a field's type, which interprets its annotation, never raises for this schema. */
  lemma {:induction false} AnnotationsAreRead(n: string, k: string, v: Value)
    requires n in AllFields() && k in AllFields()[n]
    ensures var t := AllFields()[n][k].typ; TextMatches(Show(t), v) == Some(HasType(t, v))
  {
    SectionsAreMade(n);
    MadeIsGood(AllFields()[n][k]);
    TextMeansType(AllFields()[n][k].typ, v);
  }
}
