/** The settings store (blackvuesync/settings.py): loading, the transactional update, and what
    every sequence of updates keeps. */
module SettingsStore {
  import opened Common
  import opened FieldTypes
  import opened Settings

  /** What the system calls of _save do: all succeed, or one fails before or after the file has
      been replaced. */
  datatype Fault = NoFault | BeforeReplace | AfterReplace

  datatype Outcome = Done | Refused(errors: seq<string>) | SaveFailed

  /** The settings in memory and the contents of the file. */
  datatype StoreState = StoreState(settings: Settings, file: Option<Stored>)

  const NO_SECRET := "auth.session_secret must not be empty"

  /** One error for every changed section that is not valid, in the order of the sections. */
  function SectionErrors(d: Schema, names: seq<string>, was: Settings, next: Settings): seq<string>
    requires Shaped(d, was) && Shaped(d, next) && forall n :: n in names ==> n in d.fields
  {
    if |names| == 0 then [] else
    var n := names[|names| - 1];
    SectionErrors(d, names[..|names| - 1], was, next)
    + if !SameSection(next.sections[n], was.sections[n]) && !ValidSection(d, n, next.sections[n]) then [n] else []
  }

  function Errors(d: Schema, was: Settings, next: Settings): seq<string>
    requires GoodSchema(d) && Shaped(d, was) && Shaped(d, next)
  {
    SectionErrors(d, d.names, was, next)
    + if Falsy(next.sections[AUTH][SECRET]) then [NO_SECRET] else []
  }

  /** update, on what the mutation makes of the settings. */
  function Updated(d: Schema, st: StoreState, next: Settings, fault: Fault): (StoreState, Outcome)
    requires GoodSchema(d) && Shaped(d, st.settings) && Shaped(d, next)
  {
    var errors := Errors(d, st.settings, next);
    if |errors| > 0 then (st, Refused(errors))
    else match fault
      case NoFault => (StoreState(next, Some(SettingsToDict(next))), Done)
      case BeforeReplace => (st, SaveFailed)
      case AfterReplace => (st.(file := Some(SettingsToDict(next))), SaveFailed)
  }

  function Written(s: Settings): StoreState { StoreState(s, Some(SettingsToDict(s))) }

  /** _load_or_bootstrap. */
  function Opened(d: Schema, file: Option<Stored>, fromEnv: Settings, fresher: string): StoreState
    requires GoodSchema(d)
  {
    if file.None? then Written(fromEnv) else
    var loaded := SettingsFromDict(d, file.value);
    if !Falsy(loaded.sections[AUTH][SECRET]) then StoreState(loaded, file)
    else Written(Renewed(loaded, fresher))
  }

  function Renewed(s: Settings, fresher: string): Settings
    requires AUTH in s.sections
  {
    s.(sections := s.sections[AUTH := s.sections[AUTH][SECRET := Str(fresher)]])
  }

  lemma {:induction false} RenewedIsHealthy(d: Schema, s: Settings, fresher: string)
    requires GoodSchema(d) && Clean(d, s) && |fresher| > 0
    ensures Healthy(d, Renewed(s, fresher))
  {
    var auth := s.sections[AUTH][SECRET := Str(fresher)];
    assert HasType(d.fields[AUTH][SECRET].typ, Str(fresher));
    assert CleanSection(d.fields[AUTH], auth);
  }

  ghost predicate Healthy(d: Schema, s: Settings)
  {
    Clean(d, s) && !Falsy(Secret(s))
  }

  lemma {:induction false} CleanReloads(d: Schema, s: Settings)
    requires GoodSchema(d) && Clean(d, s)
    ensures SettingsFromDict(d, SettingsToDict(s)) == s
  {
    ReloadsIffNoLists(d, s);
  }

  lemma {:induction false} NoErrorsIff(d: Schema, names: seq<string>, was: Settings, next: Settings)
    requires Shaped(d, was) && Shaped(d, next) && forall n :: n in names ==> n in d.fields
    ensures SectionErrors(d, names, was, next) == [] <==>
      forall n :: n in names && !SameSection(next.sections[n], was.sections[n]) ==> ValidSection(d, n, next.sections[n])
  {
    if |names| > 0 {
      var front, last := names[..|names| - 1], names[|names| - 1];
      NoErrorsIff(d, front, was, next);
      assert names == front + [last];
    }
  }

  /** An update goes through exactly when it leaves no changed section invalid and a secret. */
  lemma {:induction false} AcceptedIffNoErrors(d: Schema, was: Settings, next: Settings)
    requires GoodSchema(d) && Shaped(d, was) && Shaped(d, next)
    ensures Errors(d, was, next) == [] <==> Accepted(d, was, next)
  {
    NoErrorsIff(d, d.names, was, next);
  }

  class SettingsStore {
    const d: Schema
    var settings: Settings
    var file: Option<Stored>
    var listeners: seq<nat>
    var heard: seq<(nat, Settings, Settings)>

    ghost predicate Valid()
      reads this
    {
      GoodSchema(d) && Shaped(d, settings)
    }

    ghost function State(): StoreState
      reads this
    {
      StoreState(settings, file)
    }

    constructor (d: Schema, onDisk: Option<Stored>, fromEnv: Settings, fresher: string)
      requires GoodSchema(d) && Shaped(d, fromEnv)
      requires |fresher| > 0
      ensures Valid() && this.d == d
      ensures State() == Opened(d, onDisk, fromEnv, fresher)
      ensures listeners == [] && heard == []
    {
      var current, stored := LoadOrBootstrap(d, onDisk, fromEnv, fresher);
      this.d := d;
      settings, file, listeners, heard := current, stored, [], [];
    }

    /** _load_or_bootstrap, with a new session secret when the file holds none. */
    static method LoadOrBootstrap(d: Schema, onDisk: Option<Stored>, fromEnv: Settings, fresher: string)
      returns (s: Settings, stored: Option<Stored>)
      requires GoodSchema(d) && Shaped(d, fromEnv) && |fresher| > 0
      ensures Shaped(d, s) && StoreState(s, stored) == Opened(d, onDisk, fromEnv, fresher)
    {
      if onDisk.None? {
        return fromEnv, Some(SettingsToDict(fromEnv));
      }
      LoadedIsClean(d, onDisk.value);
      s, stored := SettingsFromDict(d, onDisk.value), onDisk;
      if Falsy(s.sections[AUTH][SECRET]) {
        RenewedIsHealthy(d, s, fresher);
        s := Renewed(s, fresher);
        stored := Some(SettingsToDict(s));
      }
    }

    method Get() returns (s: Settings)
      ensures s == settings
    {
      s := settings;
    }

    method OnChange(listener: nat)
      modifies this`listeners
      ensures listeners == old(listeners) + [listener]
    {
      listeners := listeners + [listener];
    }

    /** _save: the file changes as a whole or not at all. */
    method Save(s: Settings, fault: Fault) returns (ok: bool)
      modifies this`file
      ensures ok <==> fault.NoFault?
      ensures file == if fault.BeforeReplace? then old(file) else Some(SettingsToDict(s))
    {
      if fault.BeforeReplace? { return false; }
      file := Some(SettingsToDict(s));
      ok := fault.NoFault?;
    }

    method Update(mutation: Settings -> Settings, fault: Fault) returns (r: Outcome)
      requires Valid() && Shaped(d, mutation(settings))
      modifies this
      ensures Valid() && listeners == old(listeners)
      ensures (State(), r) == Updated(d, old(State()), mutation(old(settings)), fault)
      ensures heard == old(heard) + if r.Done? then Told(listeners, old(settings), settings) else []
    {
      var was, next := settings, mutation(settings);
      var errors := Validate(next);
      if |errors| > 0 { return Refused(errors); }
      var saved := Save(next, fault);
      if !saved { return SaveFailed; }
      settings := next;
      Notify(was, next);
      r := Done;
    }

    /** The errors of the sections that `next` changes, and of a missing secret. */
    method Validate(next: Settings) returns (errors: seq<string>)
      requires Valid() && Shaped(d, next)
      ensures errors == Errors(d, settings, next)
    {
      errors := [];
      for i := 0 to |d.names|
        invariant errors == SectionErrors(d, d.names[..i], settings, next)
      {
        var n := d.names[i];
        assert d.names[..i + 1][..i] == d.names[..i];
        if !SameSection(next.sections[n], settings.sections[n]) && !ValidSection(d, n, next.sections[n]) {
          errors := errors + [n];
        }
      }
      assert d.names[..|d.names|] == d.names;
      if Falsy(next.sections[AUTH][SECRET]) { errors := errors + [NO_SECRET]; }
    }

    static function Told(who: seq<nat>, was: Settings, next: Settings): (r: seq<(nat, Settings, Settings)>)
      ensures |r| == |who| && forall i :: 0 <= i < |r| ==> r[i] == (who[i], was, next)
    {
      if |who| == 0 then [] else Told(who[..|who| - 1], was, next) + [(who[|who| - 1], was, next)]
    }

    /** Every listener hears of the change; one that raises does not keep the others from it. */
    method Notify(was: Settings, next: Settings)
      modifies this`heard
      ensures heard == old(heard) + Told(listeners, was, next)
    {
      for i := 0 to |listeners|
        invariant heard == old(heard) + Told(listeners[..i], was, next)
      {
        assert listeners[..i + 1][..i] == listeners[..i];
        heard := heard + [(listeners[i], was, next)];
      }
      assert listeners[..|listeners|] == listeners;
    }
  }

  // ---- sequences of updates --------------------------------------------------------------------

  datatype Edit = Edit(mutation: Settings -> Settings, fault: Fault)

  /** A mutation of dataclass instances that puts only typed values into fields, tuples where
      tuples are declared, and leaves the version alone. */
  ghost predicate Proper(d: Schema, was: Settings, next: Settings)
  {
    && Shaped(d, was) && Shaped(d, next) && next.version == was.version
    && forall n, k :: n in d.fields && k in d.fields[n] ==>
         next.sections[n][k] == was.sections[n][k]
         || (HasType(d.fields[n][k].typ, next.sections[n][k]) && !next.sections[n][k].List?)
  }

  ghost predicate ProperRun(d: Schema, st: StoreState, edits: seq<Edit>)
    requires GoodSchema(d)
  {
    |edits| == 0 ||
    var front := edits[..|edits| - 1];
    ProperRun(d, st, front)
    && (Shaped(d, st.settings) ==>
          Shaped(d, Run(d, st, front).settings)
          && Proper(d, Run(d, st, front).settings, edits[|edits| - 1].mutation(Run(d, st, front).settings)))
  }

  /** The store after some updates; one whose mutation does not return settings does nothing. */
  ghost function Run(d: Schema, st: StoreState, edits: seq<Edit>): StoreState
    requires GoodSchema(d)
  {
    if |edits| == 0 then st else
    var s, e := Run(d, st, edits[..|edits| - 1]), edits[|edits| - 1];
    var next := e.mutation(s.settings);
    if Shaped(d, s.settings) && Shaped(d, next) then Updated(d, s, next, e.fault).0 else s
  }

  lemma {:induction false} ProperKeepsClean(d: Schema, was: Settings, next: Settings)
    requires Clean(d, was) && Proper(d, was, next)
    ensures Clean(d, next) && WellTyped(d, was, next)
  {
    forall n | n in d.fields
      ensures CleanSection(d.fields[n], next.sections[n])
    {
      forall k | k in next.sections[n]
        ensures HasType(d.fields[n][k].typ, next.sections[n][k]) && !next.sections[n][k].List?
      {
        assert k in d.fields[n];
      }
    }
  }

  /** MAIN: one update: the settings stay healthy, no section breaks, a refused update changes nothing,
      and one that returns leaves a file that reloads to what is in memory. */
  lemma {:induction false} UpdateKeeps(d: Schema, st: StoreState, next: Settings, fault: Fault)
    requires GoodSchema(d) && ChecksRespectEquality(d)
    requires Healthy(d, st.settings) && Proper(d, st.settings, next)
    ensures
      var (after, r) := Updated(d, st, next, fault);
      && Healthy(d, after.settings)
      && (forall n :: Broken(d, after.settings, n) ==> Broken(d, st.settings, n))
      && (r.Done? <==> Accepted(d, st.settings, next) && fault.NoFault?)
      && (r.Done? ==> after.settings == next && Reloads(d, after))
      && (r.Refused? ==> after == st)
      && (r.SaveFailed? ==> after.settings == st.settings)
  {
    AcceptedIffNoErrors(d, st.settings, next);
    ProperKeepsClean(d, st.settings, next);
    CleanReloads(d, next);
    if Accepted(d, st.settings, next) {
      forall n | Broken(d, next, n)
        ensures Broken(d, st.settings, n)
      {
        BrokenNeverGrows(d, st.settings, next, n);
      }
    }
  }

  ghost predicate Reloads(d: Schema, st: StoreState)
    requires GoodSchema(d)
  {
    st.file.Some? && SettingsFromDict(d, st.file.value) == st.settings
  }

  /** Starting from any file, or none, the store is healthy and its file reloads to its settings. */
  lemma {:induction false} OpenedIsHealthy(d: Schema, file: Option<Stored>, fromEnv: Settings, fresher: string)
    requires GoodSchema(d) && |fresher| > 0 && Healthy(d, fromEnv)
    ensures
      var st := Opened(d, file, fromEnv, fresher);
      Healthy(d, st.settings) && Reloads(d, st)
  {
    if file.None? {
      CleanReloads(d, fromEnv);
    } else {
      var loaded := SettingsFromDict(d, file.value);
      LoadedIsClean(d, file.value);
      if Falsy(loaded.sections[AUTH][SECRET]) {
        RenewedIsHealthy(d, loaded, fresher);
        CleanReloads(d, Renewed(loaded, fresher));
      }
    }
  }

  /** MAIN: over every sequence of updates, also when saves fail: the session secret stays non-empty,
      every field keeps its type, and no section becomes invalid that was not. */
  lemma {:induction false} RunKeepsHealth(d: Schema, st: StoreState, edits: seq<Edit>)
    requires GoodSchema(d) && ChecksRespectEquality(d)
    requires Healthy(d, st.settings) && ProperRun(d, st, edits)
    ensures Healthy(d, Run(d, st, edits).settings)
    ensures forall n :: Broken(d, Run(d, st, edits).settings, n) ==> Broken(d, st.settings, n)
  {
    if |edits| > 0 {
      var front, e := edits[..|edits| - 1], edits[|edits| - 1];
      RunKeepsHealth(d, st, front);
      var s := Run(d, st, front);
      UpdateKeeps(d, s, e.mutation(s.settings), e.fault);
    }
  }

  /** MAIN: while no save fails half-way, the file reloads to the settings in memory after every run. */
  lemma {:induction false} FileFollowsMemory(d: Schema, st: StoreState, edits: seq<Edit>)
    requires GoodSchema(d) && ChecksRespectEquality(d)
    requires Healthy(d, st.settings) && Reloads(d, st) && ProperRun(d, st, edits)
    requires forall e :: e in edits ==> !e.fault.AfterReplace?
    ensures Reloads(d, Run(d, st, edits))
  {
    if |edits| > 0 {
      var front, e := edits[..|edits| - 1], edits[|edits| - 1];
      FileFollowsMemory(d, st, front);
      RunKeepsHealth(d, st, front);
      var s := Run(d, st, front);
      assert e in edits;
      UpdateKeeps(d, s, e.mutation(s.settings), e.fault);
    }
  }

  // ---- opening the store again -------------------------------------------------------------------

  /** MAIN: a restart restores: opening the file of healthy settings gives exactly these, whatever
      the environment holds, and leaves the file alone. */
  lemma {:induction false} RestartRestores(d: Schema, s: Settings, fromEnv: Settings, fresher: string)
    requires GoodSchema(d) && Healthy(d, s)
    ensures Opened(d, Some(SettingsToDict(s)), fromEnv, fresher) == StoreState(s, Some(SettingsToDict(s)))
  {
    CleanReloads(d, s);
  }

  /** MAIN: after every sequence of updates in which no save fails after its rename, opening the
      file again gives the settings that were in memory. */
  lemma {:induction false} RestartAfterRun(d: Schema, st: StoreState, edits: seq<Edit>, fromEnv: Settings,
      fresher: string)
    requires GoodSchema(d) && ChecksRespectEquality(d)
    requires Healthy(d, st.settings) && Reloads(d, st) && ProperRun(d, st, edits)
    requires forall e :: e in edits ==> !e.fault.AfterReplace?
    ensures Opened(d, Run(d, st, edits).file, fromEnv, fresher) == Run(d, st, edits)
  {
    FileFollowsMemory(d, st, edits);
    RunKeepsHealth(d, st, edits);
  }

  /** Any file: what opening it gives is what it holds, field by field, except that a missing
      secret is replaced by the new one; and the file is written only in that case. */
  lemma {:induction false} OpenedIsLoaded(d: Schema, file: Stored, fromEnv: Settings, fresher: string,
      n: string, k: string)
    requires GoodSchema(d) && |fresher| > 0 && n in d.fields && k in d.fields[n]
    ensures
      var loaded, st := SettingsFromDict(d, file), Opened(d, Some(file), fromEnv, fresher);
      var missing := Falsy(Secret(loaded));
      && n in st.settings.sections && k in st.settings.sections[n]
      && st.settings.version == loaded.version
      && st.settings.sections[n][k]
         == (if n == AUTH && k == SECRET && missing then Str(fresher) else loaded.sections[n][k])
      && st.file == Some(if missing then SettingsToDict(st.settings) else file)
  {
    LoadedIsClean(d, file);
  }

  /** Only where there is no file do the settings come from the environment, written at once. */
  lemma {:induction false} OpenedWithoutFile(d: Schema, fromEnv: Settings, fresher: string)
    requires GoodSchema(d) && Healthy(d, fromEnv)
    ensures Opened(d, None, fromEnv, fresher).settings == fromEnv && Reloads(d, Opened(d, None, fromEnv, fresher))
  {
    CleanReloads(d, fromEnv);
  }

  /** A save that fails after the file was replaced is reported as failed, but a restart finds the
      new settings: opening gives what is in memory iff they are the old ones. */
  lemma {:induction false} FailedSaveCanStick(d: Schema, st: StoreState, next: Settings, fromEnv: Settings,
      fresher: string)
    requires GoodSchema(d) && Healthy(d, st.settings) && Proper(d, st.settings, next)
    requires Accepted(d, st.settings, next)
    ensures
      var (after, r) := Updated(d, st, next, AfterReplace);
      && r == SaveFailed && after.settings == st.settings
      && Opened(d, after.file, fromEnv, fresher).settings == next
      && (Reloads(d, after) <==> next == st.settings)
  {
    AcceptedIffNoErrors(d, st.settings, next);
    ProperKeepsClean(d, st.settings, next);
    assert Updated(d, st, next, AfterReplace) == (st.(file := Some(SettingsToDict(next))), SaveFailed);
    CleanReloads(d, next);
    RestartRestores(d, next, fromEnv, fresher);
  }
}
