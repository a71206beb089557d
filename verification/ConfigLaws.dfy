// What loading a configuration guarantees: only valid values come out, what the
// user chose survives, the migration is a fixpoint, and saving loses nothing.
module ConfigLaws {
  import opened Samples
  import opened Toml
  import opened Config

  // ---------- migration ----------

  lemma MigratedTwice(schema: int, pins: set<string>, k: string, v: Value)
    ensures Migrated(schema, pins, k, Migrated(schema, pins, k, v)) == Migrated(schema, pins, k, v)
  {
    NamesDiffer();
  }

  /** Running an era's legs again changes nothing more. */
  lemma LegsAreIdempotent(schema: int, d: Dict, pins: set<string>)
    ensures Legs(schema, Legs(schema, d, pins), pins) == Legs(schema, d, pins)
  {
    hide Migrated;
    forall k | k in d ensures Migrated(schema, pins, k, Legs(schema, d, pins)[k]) == Legs(schema, d, pins)[k] {
      MigratedTwice(schema, pins, k, d[k]);
    }
  }

  /** The legs leave a table alone exactly when each of its values is pinned, no
      old default of the era, or equal to the new default already. */
  lemma LegsFix(schema: int, d: Dict, pins: set<string>)
    ensures Legs(schema, d, pins) == d <==>
      forall k :: k in d ==> k in pins || !IsOldDefault(schema, k, d[k]) || d[k] == NewDefault(k)
  {
    hide IsOldDefault, NewDefault;
    assert Legs(schema, d, pins) == d <==> forall k :: k in d ==> Legs(schema, d, pins)[k] == d[k];
  }

  /** A file already at the current schema is not migrated. */
  lemma CurrentFilesKept(schema: int, d: Dict, pins: set<string>)
    ensures schema >= CURRENT_SCHEMA ==> Legs(schema, d, pins) == d
  {
  }

  /** An old default is only recognised in its own era: a file of schema 8 keeps
      a latency of 300, which the legs of schema 0 would replace. */
  lemma LaterErasKeepOldValues()
    ensures Legs(8, map[LATENCY := Int(300)], {}) == map[LATENCY := Int(300)]
    ensures Legs(0, map[LATENCY := Int(300)], {}) == map[LATENCY := Int(280)]
  {
    NamesDiffer();
  }

  // ---------- what comes out is valid ----------

  lemma CheckedIsAccepted(fields: Fields, name: string, v: Value)
    requires Sound(fields)
    ensures name in Names(fields) ==>
      Find(fields, name).Some? && Accepts(Find(fields, name).value.spec, Checked(fields, name, v))
  {
    if name in Names(fields) {
      var f :| f in fields && f.name == name;
      var i :| 0 <= i < |fields| && fields[i] == f;
      var g := Find(fields, name).value;
      var j :| 0 <= j < |fields| && fields[j] == g;
    }
  }

  /** Every gated entry of a table is acceptable. */
  ghost predicate AllAccepted(fields: Fields, d: Dict) {
    forall k :: k in d && k in Names(fields) ==> Find(fields, k).Some? && Accepts(Find(fields, k).value.spec, d[k])
  }

  lemma ValidatedIsAccepted(fields: Fields, d: Dict)
    requires Sound(fields)
    ensures AllAccepted(fields, Validated(fields, d)) && Validated(fields, d).Keys == d.Keys
  {
    forall k | k in d && k in Names(fields)
      ensures Find(fields, k).Some? && Accepts(Find(fields, k).value.spec, Validated(fields, d)[k])
    {
      CheckedIsAccepted(fields, k, d[k]);
    }
    hide Checked, Accepts, Find;
  }

  ghost predicate ProfilesAccepted(fields: Fields, extras: Dict) {
    PROFILES_KEY in extras && extras[PROFILES_KEY].Table? ==>
      forall p :: p in extras[PROFILES_KEY].entries ==>
        extras[PROFILES_KEY].entries[p].Table? && AllAccepted(fields, extras[PROFILES_KEY].entries[p].entries)
  }

  lemma LoadedIsValid(fields: Fields, raw: Dict)
    requires Sound(fields)
    ensures var cfg := Loaded(fields, raw);
      && cfg.values.Keys == Names(fields) && AllAccepted(fields, cfg.values)
      && ProfilesAccepted(fields, cfg.extras)
  {
    var schema, pins := SchemaOf(raw), PinsOf(raw);
    ValidatedIsAccepted(fields, Fielded(fields, raw));
    if PROFILES_KEY in Unknown(fields, raw) && raw[PROFILES_KEY].Table? {
      var bag := raw[PROFILES_KEY].entries;
      forall p | p in bag && bag[p].Table?
        ensures AllAccepted(fields, LoadedProfile(fields, schema, pins, bag[p].entries))
      {
        ValidatedIsAccepted(fields, Legs(schema, bag[p].entries, pins));
        hide Legs, AllAccepted, Validated;
      }
    }
    hide Legs, AllAccepted, Validated, LoadedProfile;
  }

  /** Whatever the document holds, if it loads, every field has an acceptable
      value, and so has every gated entry of every profile. */
  lemma LoadIsValid(fields: Fields, raw: Dict)
    requires Sound(fields)
    ensures var cfg := Load(fields, raw);
      cfg.Some? ==>
        && cfg.value.values.Keys == Names(fields) && AllAccepted(fields, cfg.value.values)
        && ProfilesAccepted(fields, cfg.value.extras)
  {
    LoadedIsValid(fields, raw);
    hide Loaded, LoadRaises, AllAccepted, ProfilesAccepted;
  }

  // ---------- when loading raises ----------

  lemma RaisesAsBefore(fields: Fields, schema: int, pins: set<string>, name: string, v: Value)
    ensures RaisesAt(fields, name, Migrated(schema, pins, name, v)) <==> RaisesAt(fields, name, v)
  {
  }

  /** The legs neither make nor mend an integer too large for a float. */
  lemma LegsDoNotMatter(fields: Fields, schema: int, pins: set<string>, d: Dict)
    ensures Raises(fields, Legs(schema, d, pins)) <==> Raises(fields, d)
  {
    hide RaisesAt, Migrated;
    forall k | k in d ensures RaisesAt(fields, k, Legs(schema, d, pins)[k]) <==> RaisesAt(fields, k, d[k]) {
      RaisesAsBefore(fields, schema, pins, k, d[k]);
    }
  }

  lemma DefaultNeverRaises(fields: Fields, name: string)
    requires Sound(fields)
    ensures !RaisesAt(fields, name, InitialOf(fields, name))
  {
    var f := Find(fields, name);
    if f.Some? {
      var i :| 0 <= i < |fields| && fields[i] == f.value;
      assert Accepts(fields[i].spec, fields[i].initial);
    }
  }

  lemma OnlyFieldsRaise(fields: Fields, name: string, v: Value)
    ensures RaisesAt(fields, name, v) ==> name in Names(fields)
  {
    hide CheckRaises;
    FoundIsNamed(fields, name);
  }

  lemma FieldsRaise(fields: Fields, raw: Dict)
    requires Sound(fields)
    ensures Raises(fields, Fielded(fields, raw)) <==> Raises(fields, raw)
  {
    hide RaisesAt, SchemaOf, PinsOf, Migrated, Sound, Names, InitialOf;
    var d := Fielded(fields, raw);
    forall k | k in d ensures RaisesAt(fields, k, d[k]) <==> k in raw && RaisesAt(fields, k, raw[k]) {
      DefaultNeverRaises(fields, k);
      if k in raw {
        RaisesAsBefore(fields, SchemaOf(raw), PinsOf(raw), k, raw[k]);
      }
    }
    forall k | k in raw && RaisesAt(fields, k, raw[k]) ensures k in d {
      OnlyFieldsRaise(fields, k, raw[k]);
    }
  }

  /** Some float field of the document, at top level or in a profile table, holds
      an integer that no float can hold. */
  predicate HoldsTooLarge(fields: Fields, raw: Dict) {
    || Raises(fields, raw)
    || (PROFILES_KEY in raw && raw[PROFILES_KEY].Table? &&
        exists p :: p in raw[PROFILES_KEY].entries && TooLargeInside(fields, raw[PROFILES_KEY].entries[p]))
  }

  predicate TooLargeInside(fields: Fields, profile: Value) {
    profile.Table? && Raises(fields, profile.entries)
  }

  /** Loading raises exactly on such a document; any other is loaded. */
  lemma LoadRaisesExactly(fields: Fields, raw: Dict)
    requires Sound(fields)
    ensures Load(fields, raw).None? <==> HoldsTooLarge(fields, raw)
  {
    FieldsRaise(fields, raw);
    ManagedKeysDiffer();
    if PROFILES_KEY in raw && raw[PROFILES_KEY].Table? {
      var bag, schema, pins := raw[PROFILES_KEY].entries, SchemaOf(raw), PinsOf(raw);
      forall p | p in bag ensures ProfileRaises(fields, schema, pins, bag[p]) <==> TooLargeInside(fields, bag[p]) {
        if bag[p].Table? {
          LegsDoNotMatter(fields, schema, pins, bag[p].entries);
        }
        hide Raises, Legs;
      }
    }
    hide Raises, ProfileRaises, TooLargeInside, Fielded, Loaded, SchemaOf, PinsOf, Names;
  }

  // ---------- what the user chose survives ----------

  lemma AcceptedIsKept(fields: Fields, name: string, v: Value)
    requires Find(fields, name).Some? ==> Accepts(Find(fields, name).value.spec, v)
    ensures Checked(fields, name, v) == v
  {
  }

  /** A valid value at top level is kept if it is pinned or was not an old
      default of the file's era; otherwise the new default takes its place. */
  lemma ChosenValueKept(fields: Fields, raw: Dict, name: string)
    requires name in raw && name in Names(fields)
    requires Find(fields, name).Some? ==> Accepts(Find(fields, name).value.spec, raw[name])
    requires name in PinsOf(raw) || !IsOldDefault(SchemaOf(raw), name, raw[name])
    ensures Load(fields, raw).Some? ==>
      name in Load(fields, raw).value.values && Load(fields, raw).value.values[name] == raw[name]
  {
    var schema, pins := SchemaOf(raw), PinsOf(raw);
    AcceptedIsKept(fields, name, raw[name]);
    hide Checked, SchemaOf, PinsOf, IsOldDefault;
  }

  /** An unpinned old default of the file's era gives way to the new default. */
  lemma OldDefaultReplaced(fields: Fields, raw: Dict, name: string)
    requires name in raw && name in Names(fields) && name !in PinsOf(raw)
    requires IsOldDefault(SchemaOf(raw), name, raw[name])
    requires Find(fields, name).Some? ==> Accepts(Find(fields, name).value.spec, NewDefault(name))
    ensures Load(fields, raw).Some? ==>
      name in Load(fields, raw).value.values && Load(fields, raw).value.values[name] == NewDefault(name)
  {
    var schema, pins := SchemaOf(raw), PinsOf(raw);
    AcceptedIsKept(fields, name, NewDefault(name));
    hide Checked, SchemaOf, PinsOf, IsOldDefault, NewDefault;
  }

  /** The same inside a profile, where an ungated entry is never checked. */
  lemma ChosenProfileValueKept(fields: Fields, raw: Dict, profile: string, name: string)
    requires Sound(fields) && PROFILES_KEY in raw && raw[PROFILES_KEY].Table?
    requires profile in raw[PROFILES_KEY].entries && raw[PROFILES_KEY].entries[profile].Table?
    requires var p := raw[PROFILES_KEY].entries[profile].entries;
      && name in p && (Find(fields, name).Some? ==> Accepts(Find(fields, name).value.spec, p[name]))
      && (name in PinsOf(raw) || !IsOldDefault(SchemaOf(raw), name, p[name]))
    requires Load(fields, raw).Some?
    ensures var bag := Load(fields, raw).value.extras;
      && PROFILES_KEY in bag && bag[PROFILES_KEY].Table? && profile in bag[PROFILES_KEY].entries
      && bag[PROFILES_KEY].entries[profile].Table? && name in bag[PROFILES_KEY].entries[profile].entries
      && bag[PROFILES_KEY].entries[profile].entries[name] == raw[PROFILES_KEY].entries[profile].entries[name]
  {
    var schema, pins := SchemaOf(raw), PinsOf(raw);
    var p := raw[PROFILES_KEY].entries[profile].entries;
    AcceptedIsKept(fields, name, p[name]);
    ManagedKeysDiffer();
    assert PROFILES_KEY in Unknown(fields, raw);
    hide Checked, SchemaOf, PinsOf, IsOldDefault, Names;
  }

  lemma ManagedKeysDiffer()
    ensures PROFILES_KEY != SCHEMA_KEY && PROFILES_KEY != PINS_KEY && SCHEMA_KEY != PINS_KEY
  {
    assert |PROFILES_KEY| == 8 && |SCHEMA_KEY| == 21 && |PINS_KEY| == 15;
  }

  /** Unknown keys pass through untouched. */
  lemma ExtrasKept(fields: Fields, raw: Dict, k: string)
    requires k in raw && k !in Names(fields) && k != SCHEMA_KEY && k != PINS_KEY && k != PROFILES_KEY
    ensures Load(fields, raw).Some? ==> k in Load(fields, raw).value.extras && Load(fields, raw).value.extras[k] == raw[k]
  {
    hide Legs, Names, LoadedProfiles;
  }

  // ---------- exactly what comes out ----------

  lemma {:induction false} FindAt(fields: Fields, i: nat)
    requires i < |fields| && forall j :: 0 <= j < i ==> fields[j].name != fields[i].name
    ensures Find(fields, fields[i].name) == Some(fields[i])
  {
    if i > 0 { FindAt(fields[1..], i - 1); }
  }

  /** The schema counts only as an integer; a document without one, or with
      anything else, is of schema 0. */
  lemma SchemaIs(raw: Dict)
    ensures var key := "config_schema_version";
      SchemaOf(raw) == if key in raw && raw[key].Int? then raw[key].number else 0
  {
  }

  /** Pinned are the texts of a list, or a lone text; nothing else pins anything. */
  lemma PinsAre(raw: Dict, name: string)
    ensures var key := "_user_overrides";
      name in PinsOf(raw) <==> key in raw && (raw[key] == Str(name) || (raw[key].List? && Str(name) in raw[key].items))
  {
    var key := "_user_overrides";
    if key in raw && raw[key].List? {
      TextsAre(raw[key].items, name);
    }
    hide TextsOf;
  }

  lemma TextsAre(items: seq<Value>, name: string)
    ensures name in TextsOf(items) <==> Str(name) in items
  {
  }

  /** The old defaults of each era, as numbers, and what replaces them. A boolean is
      none of the numbers, and only a true boolean is the old backend flag. */
  lemma OldDefaultsAre(schema: int, n: int, x: real, b: bool, name: string, v: Value)
    ensures IsOldDefault(schema, "output_latency_ms", Int(n))
      <==> (schema < 7 && n == 300) || (schema < 8 && n == 80) || (schema < 9 && n == 220)
    ensures IsOldDefault(schema, "output_latency_ms", Real(x))
      <==> (schema < 7 && x == 300.0) || (schema < 8 && x == 80.0) || (schema < 9 && x == 220.0)
    ensures IsOldDefault(schema, "chunk_seconds", Real(x)) <==> schema < 7 && x == 0.25
    ensures IsOldDefault(schema, "sola_search_ms", Real(x)) <==> schema < 7 && x == 4.0
    ensures IsOldDefault(schema, "sola_search_ms", Int(n)) <==> schema < 7 && n == 4
    ensures IsOldDefault(schema, "input_gate_dbfs", Real(x)) <==> schema < 10 && x == -55.0
    ensures IsOldDefault(schema, "input_gate_dbfs", Int(n)) <==> schema < 10 && n == -55
    ensures IsOldDefault(schema, "prefer_pw_cat", Bool(b)) <==> schema < 10 && b
    ensures IsOldDefault(schema, name, Bool(b)) ==> name == "prefer_pw_cat"
    ensures IsOldDefault(schema, "prefer_pw_cat", v) ==> v == Bool(true)
    ensures IsOldDefault(schema, name, v) ==> v.Int? || v.Real? || v.Bool?
    ensures NewDefault("output_latency_ms") == Int(280) && NewDefault("chunk_seconds") == Real(0.25)
    ensures NewDefault("sola_search_ms") == Real(16.0) && NewDefault("input_gate_dbfs") == Real(-75.0)
    ensures NewDefault("prefer_pw_cat") == Bool(false)
  {
    NamesDiffer();
  }

  /** What each kind of field accepts. */
  lemma AcceptedValues(n: int, x: real, b: bool, text: string, low: int, high: int, least: real, most: real,
                       numbers: set<int>, texts: set<string>)
    ensures Accepts(IntRange(low, high), Int(n)) <==> low <= n <= high
    ensures Accepts(FloatRange(least, most), Real(x)) <==> least <= x <= most
    ensures Accepts(FloatRange(least, most), Int(n)) <==> FitsFloat(n) && least <= n as real <= most
    ensures Accepts(IntIn(numbers), Int(n)) <==> n in numbers
    ensures Accepts(TextIn(texts), Str(text)) <==> text in texts
    ensures Accepts(Text, Str(text)) && Accepts(Flag, Bool(b))
    ensures !Accepts(IntRange(low, high), Real(x)) && !Accepts(IntRange(low, high), Bool(b)) && !Accepts(IntIn(numbers), Bool(b))
    ensures !Accepts(FloatRange(least, most), Bool(b)) && !Accepts(FloatRange(least, most), NonFinite)
    ensures !Accepts(Flag, Int(n)) && !Accepts(Text, Int(n))
  {
  }

  /** The value that a document's value v under this name loads as: the new default
      if it is an unpinned old one, and then the field's own default if the field
      does not accept it. */
  ghost predicate Becomes(fields: Fields, raw: Dict, name: string, v: Value, r: Value) {
    var w := if name !in PinsOf(raw) && IsOldDefault(SchemaOf(raw), name, v) then NewDefault(name) else v;
    var f := Find(fields, name);
    if f.Some? && !Accepts(f.value.spec, w) then r == f.value.initial else r == w
  }

  lemma MigratedBecomes(fields: Fields, raw: Dict, name: string, v: Value)
    ensures Becomes(fields, raw, name, v, Checked(fields, name, Migrated(SchemaOf(raw), PinsOf(raw), name, v)))
  {
  }

  /** Every field of every document that loads: its own default when the document
      has no value for it, otherwise what that value becomes. */
  lemma FieldOutcome(fields: Fields, raw: Dict, i: nat)
    requires Sound(fields) && i < |fields| && forall j :: 0 <= j < i ==> fields[j].name != fields[i].name
    requires Load(fields, raw).Some?
    ensures var name, values := fields[i].name, Load(fields, raw).value.values;
      && name in values
      && (name !in raw ==> values[name] == fields[i].initial)
      && (name in raw ==> Becomes(fields, raw, name, raw[name], values[name]))
  {
    var name := fields[i].name;
    FindAt(fields, i);
    LoadedWhenSome(fields, raw);
    LoadedIsValid(fields, raw);
    assert fields[i] in fields && name in Names(fields);
    assert Accepts(fields[i].spec, fields[i].initial);
    if name in raw {
      MigratedBecomes(fields, raw, name, raw[name]);
    }
    hide Becomes, Load, Find, PinsOf, SchemaOf, Migrated, Accepts, LoadedExtras, Sound, AllAccepted, ProfilesAccepted;
  }

  /** Every profile: a table stays, entry by entry; anything else is dropped. */
  lemma ProfileOutcome(fields: Fields, raw: Dict, profile: string, name: string)
    requires Sound(fields) && PROFILES_KEY in raw && raw[PROFILES_KEY].Table? && Load(fields, raw).Some?
    ensures var bag, extras := raw[PROFILES_KEY].entries, Load(fields, raw).value.extras;
      && PROFILES_KEY in extras && extras[PROFILES_KEY].Table?
      && var out := extras[PROFILES_KEY].entries;
         && (profile in out <==> profile in bag && bag[profile].Table?)
         && (profile in out ==>
               && out[profile].Table? && out[profile].entries.Keys == bag[profile].entries.Keys
               && (name in bag[profile].entries ==>
                     Becomes(fields, raw, name, bag[profile].entries[name], out[profile].entries[name])))
  {
    ManagedKeysDiffer();
    LoadedWhenSome(fields, raw);
    assert PROFILES_KEY in Unknown(fields, raw) by {
      hide Names;
    }
    var bag := raw[PROFILES_KEY].entries;
    if profile in bag && bag[profile].Table? && name in bag[profile].entries {
      MigratedBecomes(fields, raw, name, bag[profile].entries[name]);
    }
    hide Becomes, Load, Find, PinsOf, SchemaOf, Migrated, Checked, Names, Sound, Fielded, Unknown;
  }

  // ---------- saving ----------

  /** What a loaded configuration looks like. */
  ghost predicate Settled(fields: Fields, cfg: AppConfig) {
    && cfg.values.Keys == Names(fields) && AllAccepted(fields, cfg.values) && ProfilesAccepted(fields, cfg.extras)
    && (forall k :: k in cfg.extras ==> k !in Names(fields) && k != SCHEMA_KEY && k != PINS_KEY)
  }

  lemma LoadSettles(fields: Fields, raw: Dict)
    requires Sound(fields)
    ensures Settled(fields, Loaded(fields, raw))
  {
    LoadedIsValid(fields, raw);
    ManagedKeysDiffer();
    hide Legs, AllAccepted, ProfilesAccepted, Validated, LoadedProfiles, Names;
  }

  lemma SavedManagedKeys(fields: Fields, cfg: AppConfig)
    requires Sound(fields) && Settled(fields, cfg)
    ensures SchemaOf(Save(cfg)) == CURRENT_SCHEMA && PinsOf(Save(cfg)) == cfg.pins
    ensures Known(fields, Save(cfg)) == cfg.values && Unknown(fields, Save(cfg)) == cfg.extras
  {
    ManagedKeysDiffer();
    hide Listed, Names, AllAccepted, ProfilesAccepted;
  }

  lemma ValidatedKeeps(fields: Fields, d: Dict)
    requires AllAccepted(fields, d)
    ensures Validated(fields, d) == d
  {
    forall k | k in d ensures Checked(fields, k, d[k]) == d[k] {
      FoundIsNamed(fields, k);
      AcceptedIsKept(fields, k, d[k]);
    }
    hide Checked, Accepts;
  }

  lemma FoundIsNamed(fields: Fields, name: string)
    ensures Find(fields, name).Some? ==> name in Names(fields)
  {
  }

  lemma ProfilesKept(fields: Fields, schema: int, pins: set<string>, extras: Dict)
    requires schema >= CURRENT_SCHEMA && ProfilesAccepted(fields, extras)
    ensures LoadedExtras(fields, schema, pins, extras) == extras
  {
    if PROFILES_KEY in extras && extras[PROFILES_KEY].Table? {
      var bag := extras[PROFILES_KEY].entries;
      forall p | p in bag ensures LoadedProfile(fields, schema, pins, bag[p].entries) == bag[p].entries {
        ValidatedKeeps(fields, bag[p].entries);
      }
      hide LoadedProfile, AllAccepted;
      assert LoadedProfiles(fields, schema, pins, extras[PROFILES_KEY]).entries == bag;
    }
  }

  lemma AcceptedNeverRaises(fields: Fields, d: Dict)
    requires AllAccepted(fields, d)
    ensures !Raises(fields, d)
  {
    forall k | k in d ensures !RaisesAt(fields, k, d[k]) {
      FoundIsNamed(fields, k);
    }
    hide RaisesAt;
  }

  lemma ProfilesNeverRaise(fields: Fields, schema: int, pins: set<string>, extras: Dict)
    requires ProfilesAccepted(fields, extras)
    ensures PROFILES_KEY in extras ==> !ProfilesRaise(fields, schema, pins, extras[PROFILES_KEY])
  {
    if PROFILES_KEY in extras && extras[PROFILES_KEY].Table? {
      var bag := extras[PROFILES_KEY].entries;
      forall p | p in bag ensures !ProfileRaises(fields, schema, pins, bag[p]) {
        AcceptedNeverRaises(fields, bag[p].entries);
        LegsDoNotMatter(fields, schema, pins, bag[p].entries);
      }
      hide ProfileRaises, AllAccepted;
    }
  }

  /** Saving a loaded configuration and loading it again gives it back. */
  lemma LoadSaveLoad(fields: Fields, raw: Dict)
    requires Sound(fields) && Load(fields, raw).Some?
    ensures Load(fields, Save(Load(fields, raw).value)) == Load(fields, raw)
  {
    hide *;
    LoadedWhenSome(fields, raw);
    LoadSettles(fields, raw);
    SettledReloads(fields, Loaded(fields, raw));
  }

  lemma LoadedWhenSome(fields: Fields, raw: Dict)
    ensures Load(fields, raw).Some? ==> Load(fields, raw) == Some(Loaded(fields, raw))
  {
    hide LoadRaises, Loaded;
  }

  lemma SettledReloads(fields: Fields, cfg: AppConfig)
    requires Sound(fields) && Settled(fields, cfg)
    ensures Load(fields, Save(cfg)) == Some(cfg)
  {
    hide Listed, Save, Known, Unknown, Legs, Validated, LoadedExtras, SchemaOf, PinsOf, Raises, ProfilesRaise, Sound;
    SavedManagedKeys(fields, cfg);
    CurrentFilesKept(CURRENT_SCHEMA, cfg.values, cfg.pins);
    ValidatedKeeps(fields, cfg.values);
    ProfilesKept(fields, CURRENT_SCHEMA, cfg.pins, cfg.extras);
    AcceptedNeverRaises(fields, cfg.values);
    ProfilesNeverRaise(fields, CURRENT_SCHEMA, cfg.pins, cfg.extras);
    assert WithDefaults(fields, cfg.values) == cfg.values by {
      hide InitialOf, Names;
    }
    hide WithDefaults, AllAccepted, ProfilesAccepted;
  }
}
