/** PATCH /api/settings/<section> (blackvuesync/server/routes/api_settings.py): a check against a
    stale read, then an atomic update that applies the payload again, interleaved with other
    requests and with the updates that change secrets. */
module PatchSettings {
  import opened Common
  import opened FieldTypes
  import opened Settings
  import opened SettingsStore

  const PASSWORD := "password_hash"
  const SENTINEL := Str("***")

  /** _REDACTED_FIELDS. */
  function Redacted(name: string): set<string>
  {
    if name == AUTH then {PASSWORD, SECRET} else {}
  }

  function Rejected(name: string, payload: Section): set<string>
  {
    set k | k in payload && k in Redacted(name) && payload[k] != SENTINEL
  }

  /** The payload without redacted fields, and with tuples for the lists of tuple fields. */
  function Cleaned(d: Schema, name: string, payload: Section): Section
    requires name in d.fields
  {
    map k | k in payload && k !in Redacted(name) ::
      if k in d.fields[name] && d.fields[name][k].tuple && payload[k].List? then Tuple(payload[k].items)
      else payload[k]
  }

  /** dataclasses.replace of one section. */
  function Patched(s: Settings, name: string, payload: Section): Settings
    requires name in s.sections
  {
    s.(sections := s.sections[name := s.sections[name] + payload])
  }

  /** What patch_section decides before it updates: the payload it will apply, or the reason why
      it will not. */
  datatype Decision = NotFound | Invalid | Apply(payload: Section)

  function Decide(d: Schema, seen: Settings, name: string, payload: Section): Decision
    requires Shaped(d, seen)
  {
    if name !in d.fields then NotFound
    else if Rejected(name, payload) != {} then Invalid
    else
      var p := Cleaned(d, name, payload);
      if !(p.Keys <= d.fields[name].Keys) then Invalid
      else
        var section := seen.sections[name] + p;
        if ValidSection(d, name, section) then Apply(p) else Invalid
  }

  /** The two secrets, by name. */
  predicate IsSecret(n: string, k: string)
  {
    n == "auth" && (k == "password_hash" || k == "session_secret")
  }

  /** What the client's payload asks to set: each of its fields but the secrets, to the value sent,
      or to the tuple of its items where a list is sent for a field of tuples. */
  ghost predicate IsAsked(d: Schema, name: string, payload: Section, p: Section)
    requires name in d.fields
  {
    && (forall k :: k in p <==> k in payload && !IsSecret(name, k))
    && (forall k :: k in p ==>
          p[k] == if k in d.fields[name] && d.fields[name][k].tuple && payload[k].List? then Tuple(payload[k].items)
                  else payload[k])
  }

  /** A payload the route takes for the settings it has seen: a known section, known fields, of the
      secrets only what a redacted snapshot shows of them, and a section that stays valid. */
  ghost predicate IsTaken(d: Schema, seen: Settings, name: string, payload: Section, p: Section)
    requires Shaped(d, seen)
  {
    && name in d.fields && IsAsked(d, name, payload, p)
    && (forall k :: k in payload && IsSecret(name, k) ==> payload[k] == Str("***"))
    && p.Keys <= d.fields[name].Keys
    && (forall k :: k in d.fields[name] ==> HasType(d.fields[name][k].typ, (seen.sections[name] + p)[k]))
    && d.check(name, seen.sections[name] + p)
  }

  lemma {:induction false} AskedIsCleaned(d: Schema, name: string, payload: Section, p: Section)
    requires name in d.fields
    ensures IsAsked(d, name, payload, p) <==> p == Cleaned(d, name, payload)
  {
    assert forall k :: k in Redacted(name) <==> IsSecret(name, k);
  }

  lemma {:induction false} RejectedIff(name: string, payload: Section)
    ensures Rejected(name, payload) == {} <==>
      forall k :: k in payload && IsSecret(name, k) ==> payload[k] == Str("***")
  {
    assert forall k :: k in Redacted(name) <==> IsSecret(name, k);
    if k :| k in payload && IsSecret(name, k) && payload[k] != Str("***") { assert k in Rejected(name, payload); }
  }

  /** MAIN: exactly when a patch is taken, and what is then applied: all that it asks to set. */
  lemma {:induction false} DecidedIff(d: Schema, seen: Settings, name: string, payload: Section, p: Section)
    requires Shaped(d, seen)
    ensures Decide(d, seen, name, payload) == Apply(p) <==> IsTaken(d, seen, name, payload, p)
    ensures Decide(d, seen, name, payload) == NotFound <==> name !in d.fields
  {
    if name in d.fields {
      AskedIsCleaned(d, name, payload, p);
      RejectedIff(name, payload);
    }
  }

  datatype Event =
    | Check(id: nat, name: string, payload: Section)   // the stale read and the checks on it
    | Commit(id: nat, fault: Fault)                    // the update
    | SetPassword(hash: string, fault: Fault)
    | RotateSecret(fresher: string, fault: Fault)

  /** The store, the requests that passed their checks, and two history variables: the patches
      that the store took, in order, and the value last given to each secret. */
  datatype Server = Server(
    store: StoreState,
    pending: map<nat, (string, Section)>,
    taken: seq<(string, Section)>,
    secrets: map<string, Value>)

  function Updating(d: Schema, v: Server, next: Settings, fault: Fault): (Server, bool)
    requires GoodSchema(d) && Shaped(d, v.store.settings) && Shaped(d, next)
  {
    var (store, r) := Updated(d, v.store, next, fault);
    (v.(store := store), r.Done?)
  }

  ghost predicate Fits(d: Schema, name: string, payload: Section)
  {
    && name in d.fields && payload.Keys <= d.fields[name].Keys
    && payload.Keys !! Redacted(name)
    && forall k :: k in payload ==> HasType(d.fields[name][k].typ, payload[k]) && !payload[k].List?
  }

  ghost predicate Good(d: Schema, v: Server)
  {
    && Healthy(d, v.store.settings)
    && PASSWORD in d.fields[AUTH] && d.fields[AUTH][PASSWORD].typ.StrType?
    && forall id :: id in v.pending ==> Fits(d, v.pending[id].0, v.pending[id].1)
  }

  function Next(d: Schema, v: Server, e: Event): Server
    requires GoodSchema(d) && Good(d, v)
  {
    var s := v.store.settings;
    match e
    case Check(id, name, payload) =>
      var r := Decide(d, s, name, payload);
      if r.Apply? then v.(pending := v.pending[id := (name, r.payload)]) else v
    case Commit(id, fault) =>
      if id !in v.pending then v else
      var (name, payload) := v.pending[id];
      PatchedIsShaped(d, s, name, payload);
      var (w, ok) := Updating(d, v, Patched(s, name, payload), fault);
      w.(pending := v.pending - {id}, taken := if ok then v.taken + [(name, payload)] else v.taken)
    case SetPassword(hash, fault) => SecretSet(d, v, PASSWORD, Str(hash), fault)
    case RotateSecret(fresher, fault) => SecretSet(d, v, SECRET, Str(fresher), fault)
  }

  /** The routes that change a secret: the new value is for the field of that name in auth. */
  function SecretSet(d: Schema, v: Server, k: string, value: Value, fault: Fault): Server
    requires GoodSchema(d) && Good(d, v) && (k == PASSWORD || k == SECRET)
  {
    PatchedIsShaped(d, v.store.settings, AUTH, map[k := value]);
    var (w, ok) := Updating(d, v, Patched(v.store.settings, AUTH, map[k := value]), fault);
    if ok then w.(secrets := w.secrets[k := value]) else w
  }

  lemma {:induction false} PatchedIsShaped(d: Schema, s: Settings, name: string, payload: Section)
    requires Shaped(d, s) && name in d.fields && payload.Keys <= d.fields[name].Keys
    ensures Shaped(d, Patched(s, name, payload))
  {
  }

  /** A payload that fits makes a proper mutation of any settings, not only of those it was
      checked against. */
  lemma {:induction false} FittingIsProper(d: Schema, s: Settings, name: string, payload: Section)
    requires Shaped(d, s) && name in d.fields && payload.Keys <= d.fields[name].Keys
    requires forall k :: k in payload ==> HasType(d.fields[name][k].typ, payload[k]) && !payload[k].List?
    ensures Proper(d, s, Patched(s, name, payload))
  {
    PatchedIsShaped(d, s, name, payload);
  }

  /** What passes the check fits: known fields, none of them secret, typed, with tuples. */
  lemma {:induction false} CheckedFits(d: Schema, seen: Settings, name: string, payload: Section)
    requires GoodSchema(d) && Shaped(d, seen) && Decide(d, seen, name, payload).Apply?
    ensures Fits(d, name, Decide(d, seen, name, payload).payload)
  {
    var p := Decide(d, seen, name, payload).payload;
    var section := seen.sections[name] + p;
    forall k | k in p
      ensures HasType(d.fields[name][k].typ, p[k]) && !p[k].List?
    {
      assert section[k] == p[k];
      if !d.fields[name][k].tuple { ScalarIsKept(d.fields[name][k].typ, p[k]); }
    }
  }

  ghost predicate Assumed(d: Schema)
  {
    && GoodSchema(d) && ChecksRespectEquality(d)
    && PASSWORD in d.fields[AUTH] && d.fields[AUTH][PASSWORD].typ.StrType?
  }

  lemma {:induction false} UpdatingKeeps(d: Schema, v: Server, name: string, payload: Section, fault: Fault)
    requires Assumed(d) && Good(d, v) && name in d.fields && payload.Keys <= d.fields[name].Keys
    requires forall k :: k in payload ==> HasType(d.fields[name][k].typ, payload[k]) && !payload[k].List?
    ensures
      var next := Patched(v.store.settings, name, payload);
      Shaped(d, next)
      && var (w, ok) := Updating(d, v, next, fault);
         && Good(d, w) && w.pending == v.pending && w.taken == v.taken && w.secrets == v.secrets
         && (forall n :: Broken(d, w.store.settings, n) ==> Broken(d, v.store.settings, n))
         && (ok <==> Accepted(d, v.store.settings, next) && fault.NoFault?)
         && w.store.settings == if ok then next else v.store.settings
  {
    FittingIsProper(d, v.store.settings, name, payload);
    UpdateKeeps(d, v.store, Patched(v.store.settings, name, payload), fault);
  }

  lemma {:induction false} SecretFits(d: Schema, k: string, text: string)
    requires Assumed(d) && (k == PASSWORD || k == SECRET)
    ensures
      var payload: Section := map[k := Str(text)];
      payload.Keys <= d.fields[AUTH].Keys
      && forall m :: m in payload ==> HasType(d.fields[AUTH][m].typ, payload[m]) && !payload[m].List?
  {
  }

  /** Every step keeps the settings healthy and breaks no section, although each patch was checked
      against settings that may have changed since. */
  lemma {:induction false} StepKeepsGood(d: Schema, v: Server, e: Event)
    requires Assumed(d) && Good(d, v)
    ensures Good(d, Next(d, v, e))
    ensures forall n :: Broken(d, Next(d, v, e).store.settings, n) ==> Broken(d, v.store.settings, n)
  {
    match e
    case Check(id, name, payload) =>
      if Decide(d, v.store.settings, name, payload).Apply? { CheckedFits(d, v.store.settings, name, payload); }
    case Commit(id, fault) =>
      if id in v.pending { UpdatingKeeps(d, v, v.pending[id].0, v.pending[id].1, fault); }
    case SetPassword(hash, fault) =>
      SecretFits(d, PASSWORD, hash);
      UpdatingKeeps(d, v, AUTH, map[PASSWORD := Str(hash)], fault);
    case RotateSecret(fresher, fault) =>
      SecretFits(d, SECRET, fresher);
      UpdatingKeeps(d, v, AUTH, map[SECRET := Str(fresher)], fault);
  }

  ghost function Run(d: Schema, v: Server, events: seq<Event>): Server
    requires GoodSchema(d)
  {
    if |events| == 0 then v else
    var w := Run(d, v, events[..|events| - 1]);
    if Good(d, w) then Next(d, w, events[|events| - 1]) else w
  }

  function Started(store: StoreState): Server { Server(store, map[], [], map[]) }

  /** The value of a field after some patches, applied in order. */
  function LastWrite(taken: seq<(string, Section)>, n: string, k: string, value: Value): Value
  {
    if |taken| == 0 then value else
    var (name, payload) := taken[|taken| - 1];
    if name == n && k in payload then payload[k] else LastWrite(taken[..|taken| - 1], n, k, value)
  }

  /** The fields of the store: secrets as last set, all others as last patched. */
  ghost predicate Explained(d: Schema, start: Settings, v: Server)
  {
    && Shaped(d, start) && Shaped(d, v.store.settings)
    && forall n, k :: n in d.fields && k in d.fields[n] ==> FieldExplained(start, v, n, k)
  }

  ghost predicate FieldExplained(start: Settings, v: Server, n: string, k: string)
    requires n in start.sections && k in start.sections[n]
    requires n in v.store.settings.sections && k in v.store.settings.sections[n]
  {
    v.store.settings.sections[n][k] ==
    if IsSecret(n, k) then if k in v.secrets then v.secrets[k] else start.sections[n][k]
    else LastWrite(v.taken, n, k, start.sections[n][k])
  }

  lemma {:induction false} LastWritePush(taken: seq<(string, Section)>, name: string, payload: Section,
      n: string, k: string, value: Value)
    ensures LastWrite(taken + [(name, payload)], n, k, value)
      == if name == n && k in payload then payload[k] else LastWrite(taken, n, k, value)
  {
    assert (taken + [(name, payload)])[..|taken|] == taken;
  }

  lemma {:induction false} PatchedField(s: Settings, name: string, payload: Section, n: string, k: string)
    requires name in s.sections && n in s.sections && k in s.sections[n]
    ensures Patched(s, name, payload).sections[n][k]
      == if n == name && k in payload then payload[k] else s.sections[n][k]
  {
  }

  /** The patch is taken, by the settings and the history, or nothing is. */
  ghost predicate PatchChange(v: Server, w: Server, name: string, payload: Section)
  {
    && name in v.store.settings.sections && w.secrets == v.secrets
    && ((w.taken == v.taken && w.store.settings == v.store.settings)
        || (w.taken == v.taken + [(name, payload)]
            && w.store.settings == Patched(v.store.settings, name, payload)))
  }

  lemma {:induction false} PatchedFieldsExplained(d: Schema, start: Settings, v: Server, w: Server, name: string,
      payload: Section)
    requires Explained(d, start, v) && PatchChange(v, w, name, payload) && payload.Keys !! Redacted(name)
    requires Shaped(d, w.store.settings)
    ensures Explained(d, start, w)
  {
    forall n, k | n in d.fields && k in d.fields[n]
      ensures FieldExplained(start, w, n, k)
    {
      assert FieldExplained(start, v, n, k);
      PatchedField(v.store.settings, name, payload, n, k);
      LastWritePush(v.taken, name, payload, n, k, start.sections[n][k]);
    }
  }

  lemma {:induction false} CommitExplained(d: Schema, start: Settings, v: Server, id: nat, fault: Fault)
    requires Assumed(d) && Good(d, v) && Explained(d, start, v) && id in v.pending
    ensures Shaped(d, Next(d, v, Commit(id, fault)).store.settings)
    ensures Explained(d, start, Next(d, v, Commit(id, fault)))
  {
    var (name, payload) := v.pending[id];
    var w := Next(d, v, Commit(id, fault));
    UpdatingKeeps(d, v, name, payload, fault);
    assert PatchChange(v, w, name, payload);
    PatchedFieldsExplained(d, start, v, w, name, payload);
  }

  lemma {:induction false} SecretExplained(d: Schema, start: Settings, v: Server, s: string, text: string, fault: Fault)
    requires Assumed(d) && Good(d, v) && Explained(d, start, v) && (s == PASSWORD || s == SECRET)
    ensures Shaped(d, SecretSet(d, v, s, Str(text), fault).store.settings)
    ensures Explained(d, start, SecretSet(d, v, s, Str(text), fault))
  {
    var w, payload := SecretSet(d, v, s, Str(text), fault), map[s := Str(text)];
    SecretFits(d, s, text);
    UpdatingKeeps(d, v, AUTH, payload, fault);
    assert SecretChange(v, w, s, Str(text));
    SecretFieldsExplained(d, start, v, w, s, Str(text));
  }

  /** The secret is set, in the settings and in the history, or nothing is. */
  ghost predicate SecretChange(v: Server, w: Server, s: string, value: Value)
  {
    && AUTH in v.store.settings.sections && w.taken == v.taken
    && ((w.secrets == v.secrets && w.store.settings == v.store.settings)
        || (w.secrets == v.secrets[s := value]
            && w.store.settings == Patched(v.store.settings, AUTH, map[s := value])))
  }

  lemma {:induction false} SecretFieldsExplained(d: Schema, start: Settings, v: Server, w: Server, s: string,
      value: Value)
    requires (s == PASSWORD || s == SECRET) && Explained(d, start, v) && SecretChange(v, w, s, value)
    requires Shaped(d, w.store.settings)
    ensures Explained(d, start, w)
  {
    forall n, k | n in d.fields && k in d.fields[n]
      ensures FieldExplained(start, w, n, k)
    {
      assert FieldExplained(start, v, n, k);
      PatchedField(v.store.settings, AUTH, map[s := value], n, k);
      SecretFieldStep(start, v, w, s, value, n, k);
    }
  }

  lemma {:induction false} SecretFieldStep(start: Settings, v: Server, w: Server, s: string, value: Value,
      n: string, k: string)
    requires s == PASSWORD || s == SECRET
    requires n in start.sections && k in start.sections[n]
    requires n in v.store.settings.sections && k in v.store.settings.sections[n] && FieldExplained(start, v, n, k)
    requires n in w.store.settings.sections && k in w.store.settings.sections[n] && w.taken == v.taken
    requires
      var before, after := v.store.settings.sections[n][k], w.store.settings.sections[n][k];
      || (w.secrets == v.secrets && after == before)
      || (w.secrets == v.secrets[s := value] && after == if n == AUTH && k == s then value else before)
    ensures FieldExplained(start, w, n, k)
  {
  }

  lemma {:induction false} StepExplained(d: Schema, start: Settings, v: Server, e: Event)
    requires Assumed(d) && Good(d, v) && Explained(d, start, v)
    ensures Explained(d, start, Next(d, v, e))
  {
    match e
    case Check(id, name, payload) =>
      var w := Next(d, v, e);
      forall n, k | n in d.fields && k in d.fields[n]
        ensures FieldExplained(start, w, n, k)
      {
        assert FieldExplained(start, v, n, k);
      }
    case Commit(id, fault) => if id in v.pending { CommitExplained(d, start, v, id, fault); }
    case SetPassword(hash, fault) => SecretExplained(d, start, v, PASSWORD, hash, fault);
    case RotateSecret(fresher, fault) => SecretExplained(d, start, v, SECRET, fresher, fault);
  }

  /** MAIN: every interleaving of patches and secret changes leaves healthy settings with no section
      newly broken, in which each field is as the last accepted patch that names it left it, and
      each secret as the last route that sets it left it. */
  lemma {:induction false} EveryInterleaving(d: Schema, store: StoreState, events: seq<Event>)
    requires Assumed(d) && Healthy(d, store.settings)
    ensures Good(d, Run(d, Started(store), events))
    ensures forall n :: Broken(d, Run(d, Started(store), events).store.settings, n) ==> Broken(d, store.settings, n)
    ensures Explained(d, store.settings, Run(d, Started(store), events))
  {
    if |events| > 0 {
      var front, e := events[..|events| - 1], events[|events| - 1];
      EveryInterleaving(d, store, front);
      StepKeepsGood(d, Run(d, Started(store), front), e);
      StepExplained(d, store.settings, Run(d, Started(store), front), e);
    }
  }

  /** MAIN: no accepted edit is lost to a concurrent one that touches other fields: a field keeps the
      value an accepted patch gave it until a later accepted patch names the same field. */
  lemma {:induction false} AcceptedEditsStay(d: Schema, store: StoreState, events: seq<Event>, i: nat, k: string)
    requires Assumed(d) && Healthy(d, store.settings)
    requires i < |Run(d, Started(store), events).taken|
    requires
      var taken := Run(d, Started(store), events).taken;
      && k in taken[i].1
      && (forall j :: i < j < |taken| ==> taken[j].0 != taken[i].0 || k !in taken[j].1)
    requires
      var (n, p) := Run(d, Started(store), events).taken[i];
      n in d.fields && k in d.fields[n] && !IsSecret(n, k)
    ensures
      var v := Run(d, Started(store), events);
      var (n, p) := v.taken[i];
      n in v.store.settings.sections && k in v.store.settings.sections[n]
      && v.store.settings.sections[n][k] == p[k]
  {
    var v := Run(d, Started(store), events);
    var (n, p) := v.taken[i];
    EveryInterleaving(d, store, events);
    assert FieldExplained(store.settings, v, n, k);
    LastOfMany(v.taken, i, n, k, store.settings.sections[n][k]);
  }

  lemma {:induction false} LastOfMany(taken: seq<(string, Section)>, i: nat, n: string, k: string, value: Value)
    requires i < |taken| && taken[i].0 == n && k in taken[i].1
    requires forall j :: i < j < |taken| ==> taken[j].0 != n || k !in taken[j].1
    ensures LastWrite(taken, n, k, value) == taken[i].1[k]
  {
    if i < |taken| - 1 {
      LastOfMany(taken[..|taken| - 1], i, n, k, value);
    }
  }

  // ---- what the client is told -----------------------------------------------------------------------

  /** No check or commit of this request is among the events. */
  ghost predicate Silent(events: seq<Event>, id: nat)
  {
    forall e :: e in events ==> (e.Check? || e.Commit?) ==> e.id != id
  }

  lemma {:induction false} SilentStep(d: Schema, v: Server, e: Event, id: nat)
    requires Assumed(d) && Good(d, v) && Silent([e], id)
    ensures id in Next(d, v, e).pending <==> id in v.pending
    ensures id in v.pending ==> Next(d, v, e).pending[id] == v.pending[id]
  {
    assert e in [e];
    match e
    case Check(_, _, _) =>
    case Commit(other, fault) =>
      if other in v.pending { UpdatingKeeps(d, v, v.pending[other].0, v.pending[other].1, fault); }
    case SetPassword(hash, fault) =>
      SecretFits(d, PASSWORD, hash);
      UpdatingKeeps(d, v, AUTH, map[PASSWORD := Str(hash)], fault);
    case RotateSecret(fresher, fault) =>
      SecretFits(d, SECRET, fresher);
      UpdatingKeeps(d, v, AUTH, map[SECRET := Str(fresher)], fault);
  }

  /** Between the checks of a request and its update nothing touches it. */
  lemma {:induction false} PendingStays(d: Schema, store: StoreState, before: seq<Event>, between: seq<Event>, id: nat)
    requires Assumed(d) && Healthy(d, store.settings) && Silent(between, id)
    ensures
      var v, w := Run(d, Started(store), before), Run(d, Started(store), before + between);
      && (id in w.pending <==> id in v.pending) && (id in v.pending ==> w.pending[id] == v.pending[id])
  {
    if |between| == 0 {
      assert before + between == before;
    } else {
      var front, e := between[..|between| - 1], between[|between| - 1];
      assert (before + between)[..|before + between| - 1] == before + front;
      PendingStays(d, store, before, front, id);
      EveryInterleaving(d, store, before + front);
      SilentStep(d, Run(d, Started(store), before + front), e, id);
    }
  }

  lemma {:induction false} StepKeepsTaken(d: Schema, v: Server, e: Event)
    requires Assumed(d) && Good(d, v)
    ensures v.taken <= Next(d, v, e).taken
  {
    match e
    case Check(_, _, _) =>
    case Commit(id, fault) =>
    case SetPassword(hash, fault) =>
      SecretFits(d, PASSWORD, hash);
      UpdatingKeeps(d, v, AUTH, map[PASSWORD := Str(hash)], fault);
    case RotateSecret(fresher, fault) =>
      SecretFits(d, SECRET, fresher);
      UpdatingKeeps(d, v, AUTH, map[SECRET := Str(fresher)], fault);
  }

  lemma {:induction false} TakenGrows(d: Schema, store: StoreState, before: seq<Event>, after: seq<Event>)
    requires Assumed(d) && Healthy(d, store.settings)
    ensures Run(d, Started(store), before).taken <= Run(d, Started(store), before + after).taken
  {
    if |after| == 0 {
      assert before + after == before;
    } else {
      var front := after[..|after| - 1];
      assert (before + after)[..|before + after| - 1] == before + front;
      TakenGrows(d, store, before, front);
      EveryInterleaving(d, store, before + front);
      StepKeepsTaken(d, Run(d, Started(store), before + front), after[|after| - 1]);
    }
  }

  lemma {:induction false} RunPush(d: Schema, store: StoreState, events: seq<Event>, e: Event)
    requires Assumed(d) && Healthy(d, store.settings)
    ensures Good(d, Run(d, Started(store), events))
    ensures Run(d, Started(store), events + [e]) == Next(d, Run(d, Started(store), events), e)
  {
    EveryInterleaving(d, store, events);
    assert (events + [e])[..|events|] == events;
  }

  /** The request is answered as applied: its update is the next that the store takes. */
  ghost predicate AnsweredApplied(d: Schema, store: StoreState, upto: seq<Event>, commit: Event)
    requires GoodSchema(d)
  {
    |Run(d, Started(store), upto + [commit]).taken| > |Run(d, Started(store), upto).taken|
  }

  /** What was taken is what the client sent. */
  lemma {:induction false} AppliedIsAsked(d: Schema, store: StoreState, before: seq<Event>, id: nat, name: string,
      payload: Section, between: seq<Event>, fault: Fault)
    requires Assumed(d) && Healthy(d, store.settings)
    requires Silent(before, id) && Silent(between, id)
    requires AnsweredApplied(d, store, before + [Check(id, name, payload)] + between, Commit(id, fault))
    ensures
      var upto := before + [Check(id, name, payload)] + between;
      var taken := Run(d, Started(store), upto).taken;
      var p := Run(d, Started(store), upto + [Commit(id, fault)]).taken[|taken|];
      p.0 == name && name in d.fields && IsAsked(d, name, payload, p.1)
  {
    var check := Check(id, name, payload);
    var upto := before + [check] + between;
    var v := Run(d, Started(store), before);
    assert [] + before == before;
    PendingStays(d, store, [], before, id);
    RunPush(d, store, before, check);
    PendingStays(d, store, before + [check], between, id);
    RunPush(d, store, upto, Commit(id, fault));
    var r := Decide(d, v.store.settings, name, payload);
    assert id in Run(d, Started(store), upto).pending;
    assert r.Apply?;
    DecidedIff(d, v.store.settings, name, payload, r.payload);
  }

  /** MAIN: no edit is lost that a client was told is applied. From its checks through its update
      and any later requests: each field it sent, but for the secrets, has the value it sent, until
      a later patch that is taken names the same field. */
  lemma {:induction false} AnsweredEditsStay(d: Schema, store: StoreState, before: seq<Event>, id: nat, name: string,
      payload: Section, between: seq<Event>, fault: Fault, after: seq<Event>, k: string)
    requires Assumed(d) && Healthy(d, store.settings)
    requires Silent(before, id) && Silent(between, id) && k in payload && !IsSecret(name, k)
    requires AnsweredApplied(d, store, before + [Check(id, name, payload)] + between, Commit(id, fault))
    requires
      var upto := before + [Check(id, name, payload)] + between + [Commit(id, fault)];
      var first := |Run(d, Started(store), upto).taken|;
      var taken := Run(d, Started(store), upto + after).taken;
      forall j :: first <= j < |taken| ==> taken[j].0 != name || k !in taken[j].1
    ensures
      var events := before + [Check(id, name, payload)] + between + [Commit(id, fault)] + after;
      var s := Run(d, Started(store), events).store.settings;
      && name in d.fields && k in d.fields[name] && name in s.sections && k in s.sections[name]
      && s.sections[name][k]
         == if d.fields[name][k].tuple && payload[k].List? then Tuple(payload[k].items) else payload[k]
  {
    var upto := before + [Check(id, name, payload)] + between;
    var done := upto + [Commit(id, fault)];
    AppliedIsAsked(d, store, before, id, name, payload, between, fault);
    AppliedOnce(d, store, upto, Commit(id, fault));
    TakenGrows(d, store, done, after);
    var i := |Run(d, Started(store), upto).taken|;
    var taken := Run(d, Started(store), done + after).taken;
    assert taken[i] == Run(d, Started(store), done).taken[i];
    TakenAreKnown(d, store, done + after);
    assert Fits(d, taken[i].0, taken[i].1);
    AcceptedEditsStay(d, store, done + after, i, k);
  }

  lemma {:induction false} AppliedOnce(d: Schema, store: StoreState, upto: seq<Event>, commit: Event)
    requires Assumed(d) && Healthy(d, store.settings) && commit.Commit?
    requires AnsweredApplied(d, store, upto, commit)
    ensures |Run(d, Started(store), upto + [commit]).taken| == |Run(d, Started(store), upto).taken| + 1
  {
    RunPush(d, store, upto, commit);
  }

  ghost predicate TakenFits(d: Schema, taken: seq<(string, Section)>)
  {
    forall i :: 0 <= i < |taken| ==> Fits(d, taken[i].0, taken[i].1)
  }

  /** Only fields of the schema are ever patched. */
  lemma {:induction false} TakenAreKnown(d: Schema, store: StoreState, events: seq<Event>)
    requires Assumed(d) && Healthy(d, store.settings)
    ensures TakenFits(d, Run(d, Started(store), events).taken)
  {
    if |events| > 0 {
      var front, e := events[..|events| - 1], events[|events| - 1];
      assert events == front + [e];
      RunPush(d, store, front, e);
      TakenAreKnown(d, store, front);
      StepKeepsFits(d, Run(d, Started(store), front), e);
    }
  }

  lemma {:induction false} StepKeepsFits(d: Schema, v: Server, e: Event)
    requires Assumed(d) && Good(d, v) && TakenFits(d, v.taken)
    ensures TakenFits(d, Next(d, v, e).taken)
  {
    var w := Next(d, v, e);
    StepKeepsTaken(d, v, e);
    if |w.taken| > |v.taken| { NewlyTakenFits(d, v, e); }
    forall i | 0 <= i < |w.taken| ensures Fits(d, w.taken[i].0, w.taken[i].1) {
      if i < |v.taken| { assert w.taken[i] == v.taken[i]; }
    }
  }

  lemma {:induction false} NewlyTakenFits(d: Schema, v: Server, e: Event)
    requires Assumed(d) && Good(d, v) && |Next(d, v, e).taken| > |v.taken|
    ensures |Next(d, v, e).taken| == |v.taken| + 1
    ensures var (n, p) := Next(d, v, e).taken[|v.taken|]; Fits(d, n, p)
  {
    match e
    case Check(_, _, _) =>
    case Commit(id, fault) =>
    case SetPassword(hash, fault) =>
      SecretFits(d, PASSWORD, hash);
      UpdatingKeeps(d, v, AUTH, map[PASSWORD := Str(hash)], fault);
    case RotateSecret(fresher, fault) =>
      SecretFits(d, SECRET, fresher);
      UpdatingKeeps(d, v, AUTH, map[SECRET := Str(fresher)], fault);
  }

  // ---- when a request is applied ----------------------------------------------------------------------

  /** The payload leaves the section as it is, or valid, also in the settings as they are now. */
  ghost predicate StillFits(d: Schema, now: Settings, name: string, p: Section)
    requires Shaped(d, now)
  {
    && name in d.fields && p.Keys <= d.fields[name].Keys
    && var section := now.sections[name] + p;
       || SameSection(section, now.sections[name])
       || ((forall k :: k in d.fields[name] ==> HasType(d.fields[name][k].typ, section[k])) && d.check(name, section))
  }

  lemma {:induction false} AcceptedIffFits(d: Schema, now: Settings, name: string, p: Section)
    requires Assumed(d) && Healthy(d, now) && Fits(d, name, p)
    ensures Shaped(d, Patched(now, name, p))
    ensures Accepted(d, now, Patched(now, name, p)) <==> StillFits(d, now, name, p)
  {
    var next := Patched(now, name, p);
    PatchedIsShaped(d, now, name, p);
    assert Secret(next) == Secret(now);
    forall n | n in d.fields && n != name ensures SameSection(next.sections[n], now.sections[n]) {
      SameAsItself(now.sections[n]);
    }
  }

  /** MAIN: exactly when a request is answered as applied, whatever happens before it and between its
      check and its update: it is taken for the settings it saw, still fits those it meets, and the
      save succeeds. */
  lemma {:induction false} AppliedIff(d: Schema, store: StoreState, before: seq<Event>, id: nat, name: string,
      payload: Section, between: seq<Event>, fault: Fault)
    requires Assumed(d) && Healthy(d, store.settings)
    requires Silent(before, id) && Silent(between, id)
    ensures
      var upto := before + [Check(id, name, payload)] + between;
      var seen := Run(d, Started(store), before).store.settings;
      var now := Run(d, Started(store), upto).store.settings;
      && Shaped(d, seen) && Shaped(d, now)
      && (AnsweredApplied(d, store, upto, Commit(id, fault))
          <==> fault.NoFault? && exists p :: IsTaken(d, seen, name, payload, p) && StillFits(d, now, name, p))
  {
    var check := Check(id, name, payload);
    var upto := before + [check] + between;
    var v, w := Run(d, Started(store), before), Run(d, Started(store), upto);
    assert [] + before == before;
    PendingStays(d, store, [], before, id);
    RunPush(d, store, before, check);
    PendingStays(d, store, before + [check], between, id);
    RunPush(d, store, upto, Commit(id, fault));
    var r := Decide(d, v.store.settings, name, payload);
    forall p ensures r == Apply(p) <==> IsTaken(d, v.store.settings, name, payload, p) {
      DecidedIff(d, v.store.settings, name, payload, p);
    }
    if r.Apply? {
      CheckedFits(d, v.store.settings, name, payload);
      UpdatingKeeps(d, w, name, r.payload, fault);
      AcceptedIffFits(d, w.store.settings, name, r.payload);
    }
  }

  /** With nothing in between: when it is taken for the settings it saw. */
  lemma {:induction false} AppliedAloneIff(d: Schema, store: StoreState, before: seq<Event>, id: nat, name: string,
      payload: Section)
    requires Assumed(d) && Healthy(d, store.settings) && Silent(before, id)
    ensures
      var seen := Run(d, Started(store), before).store.settings;
      && Shaped(d, seen)
      && (AnsweredApplied(d, store, before + [Check(id, name, payload)], Commit(id, NoFault))
          <==> exists p :: IsTaken(d, seen, name, payload, p))
  {
    var check := Check(id, name, payload);
    assert before + [check] + [] == before + [check];
    AppliedIff(d, store, before, id, name, payload, [], NoFault);
    RunPush(d, store, before, check);
  }

  /** The settings with one secret changed and nothing else. */
  ghost function WithSecret(was: Settings, k: string, text: string): Settings
    requires "auth" in was.sections
  {
    was.(sections := was.sections["auth" := was.sections["auth"][k := Str(text)]])
  }

  /** The secret is changed when the store accepts that and the save succeeds, and nothing else is. */
  ghost predicate SecretOutcome(d: Schema, v: Server, w: Server, k: string, text: string, fault: Fault)
  {
    var was, now := v.store.settings, w.store.settings;
    && w.pending == v.pending && w.taken == v.taken
    && Shaped(d, was) && "auth" in was.sections && Shaped(d, WithSecret(was, k, text))
    && now == if fault.NoFault? && Accepted(d, was, WithSecret(was, k, text)) then WithSecret(was, k, text) else was
  }

  lemma {:induction false} PatchedSecret(d: Schema, was: Settings, k: string, text: string)
    requires Shaped(d, was) && AUTH in d.fields && k in d.fields[AUTH]
    ensures AUTH in was.sections && Patched(was, AUTH, map[k := Str(text)]) == WithSecret(was, k, text)
    ensures Shaped(d, WithSecret(was, k, text))
  {
    var section := was.sections[AUTH];
    assert section + map[k := Str(text)] == section[k := Str(text)];
  }

  lemma {:induction false} SecretStep(d: Schema, v: Server, k: string, text: string, fault: Fault)
    requires Assumed(d) && Good(d, v) && (k == PASSWORD || k == SECRET)
    ensures SecretOutcome(d, v, SecretSet(d, v, k, Str(text), fault), k, text, fault)
  {
    var was, payload: Section := v.store.settings, map[k := Str(text)];
    SecretFits(d, k, text);
    PatchedSecret(d, was, k, text);
    UpdatingKeeps(d, v, AUTH, payload, fault);
    var (w, ok) := Updating(d, v, Patched(was, AUTH, payload), fault);
    assert w.store.settings == if ok then WithSecret(was, k, text) else was;
  }

  /** A route that sets a secret does so, after any events. */
  lemma {:induction false} PasswordIsSet(d: Schema, store: StoreState, events: seq<Event>, text: string, fault: Fault)
    requires Assumed(d) && Healthy(d, store.settings)
    ensures
      var v, w := Run(d, Started(store), events), Run(d, Started(store), events + [SetPassword(text, fault)]);
      SecretOutcome(d, v, w, "password_hash", text, fault)
  {
    var v := Run(d, Started(store), events);
    RunPush(d, store, events, SetPassword(text, fault));
    SecretStep(d, v, PASSWORD, text, fault);
    assert Next(d, v, SetPassword(text, fault)) == SecretSet(d, v, PASSWORD, Str(text), fault);
  }

  lemma {:induction false} SecretIsRotated(d: Schema, store: StoreState, events: seq<Event>, text: string, fault: Fault)
    requires Assumed(d) && Healthy(d, store.settings)
    ensures
      var v, w := Run(d, Started(store), events), Run(d, Started(store), events + [RotateSecret(text, fault)]);
      SecretOutcome(d, v, w, "session_secret", text, fault)
  {
    var v := Run(d, Started(store), events);
    RunPush(d, store, events, RotateSecret(text, fault));
    SecretStep(d, v, SECRET, text, fault);
    assert Next(d, v, RotateSecret(text, fault)) == SecretSet(d, v, SECRET, Str(text), fault);
  }
}
