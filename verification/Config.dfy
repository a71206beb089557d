// Loading the application's configuration: era-by-era migration of old
// defaults, validation of every gated field at top level and in every profile,
// and saving it back.
module Config {
  import opened Samples
  import opened Toml

  // ---------- fields ----------

  /** Where the conversion of an integer to a double begins to overflow: 2^1024
      less half a unit in the last place of the largest double, 2^970. */
  const FLOAT_LIMIT: int :=
    0xfffffffffffffc00000000000000000000000000000000000000000000000000_0000000000000000000000000000000000000000000000000000000000000000_0000000000000000000000000000000000000000000000000000000000000000_0000000000000000000000000000000000000000000000000000000000000000

  predicate FitsFloat(n: int) {
    -FLOAT_LIMIT < n < FLOAT_LIMIT
  }

  /** What a field accepts. A float field takes an integer that fits a float too;
      no number is accepted where a boolean is wanted, nor the other way round. */
  datatype Spec =
    | Text
    | TextIn(texts: set<string>)
    | IntIn(numbers: set<int>)
    | IntRange(low: int, high: int)
    | FloatRange(least: real, most: real)
    | Flag

  datatype Field = Field(name: string, spec: Spec, initial: Value)

  /** The fields of the configuration; all of them are gated. */
  type Fields = seq<Field>

  predicate Accepts(spec: Spec, v: Value) {
    match spec
    case Text => v.Str?
    case TextIn(texts) => v.Str? && v.text in texts
    case IntIn(numbers) => v.Int? && v.number in numbers
    case IntRange(low, high) => v.Int? && low <= v.number <= high
    case FloatRange(least, most) =>
      (v.Int? && FitsFloat(v.number) && least <= v.number as real <= most) || (v.Real? && least <= v.amount <= most)
    case Flag => v.Bool?
  }

  /** Checking v against the field's spec raises instead of accepting or
      rejecting it: an integer is converted to the float it is too large for. */
  predicate CheckRaises(spec: Spec, v: Value) {
    spec.FloatRange? && v.Int? && !FitsFloat(v.number)
  }

  function Find(fields: Fields, name: string): (r: Option<Field>)
    ensures r.Some? <==> exists i :: 0 <= i < |fields| && fields[i].name == name
    ensures r.Some? ==> r.value in fields && r.value.name == name
  {
    if fields == [] then None
    else if fields[0].name == name then Some(fields[0])
    else Find(fields[1..], name)
  }

  function Names(fields: Fields): set<string> {
    set f | f in fields :: f.name
  }

  const SCHEMA_KEY: string := "config_schema_version"
  const PINS_KEY: string := "_user_overrides"
  const PROFILES_KEY: string := "profiles"

  /** The defaults are acceptable, and no field has a managed key's name. */
  ghost predicate Sound(fields: Fields) {
    && (forall i :: 0 <= i < |fields| ==> Accepts(fields[i].spec, fields[i].initial))
    && SCHEMA_KEY !in Names(fields) && PINS_KEY !in Names(fields) && PROFILES_KEY !in Names(fields)
  }

  // ---------- migration ----------

  const CHUNK: string := "chunk_seconds"
  const SEARCH: string := "sola_search_ms"
  const LATENCY: string := "output_latency_ms"
  const GATE: string := "input_gate_dbfs"
  const PW_CAT: string := "prefer_pw_cat"

  const CURRENT_SCHEMA: int := 10

  /** The value is one that some leg for this schema replaces. */
  predicate IsOldDefault(schema: int, name: string, v: Value) {
    || (name == CHUNK && schema < 7 && EqualsNumber(v, 0.25))
    || (name == SEARCH && schema < 7 && EqualsNumber(v, 4.0))
    || (name == LATENCY && ((schema < 7 && EqualsNumber(v, 300.0)) || (schema < 8 && EqualsNumber(v, 80.0))
                            || (schema < 9 && EqualsNumber(v, 220.0))))
    || (name == GATE && schema < 10 && EqualsNumber(v, -55.0))
    || (name == PW_CAT && schema < 10 && v == Bool(true))
  }

  function NewDefault(name: string): Value {
    if name == CHUNK then Real(0.25)
    else if name == SEARCH then Real(16.0)
    else if name == LATENCY then Int(280)
    else if name == GATE then Real(-75.0)
    else Bool(false)
  }

  function Migrated(schema: int, pins: set<string>, name: string, v: Value): Value {
    if name !in pins && IsOldDefault(schema, name, v) then NewDefault(name) else v
  }

  /** What becomes of a table: each unpinned old default of the file's era gives
      way to the new default, every other value and every key stays. */
  function Legs(schema: int, d: Dict, pins: set<string>): Dict {
    map k | k in d :: Migrated(schema, pins, k, d[k])
  }

  // ---------- the chain of legs ----------

  /** `if d.get(name) == was: d[name] = now`, unless the name is pinned. */
  function Bump(d: Dict, pins: set<string>, name: string, was: real, now: Value): Dict {
    if name !in pins && name in d && EqualsNumber(d[name], was) then d[name := now] else d
  }

  /** The strict `is True` test: a 1 is left alone. */
  function BumpFlag(d: Dict, pins: set<string>): Dict {
    if PW_CAT !in pins && PW_CAT in d && d[PW_CAT] == Bool(true) then d[PW_CAT := Bool(false)] else d
  }

  function Leg7(d: Dict, pins: set<string>): Dict {
    Bump(Bump(Bump(d, pins, CHUNK, 0.25, Real(0.25)), pins, SEARCH, 4.0, Real(16.0)), pins, LATENCY, 300.0, Int(280))
  }

  function Leg8(d: Dict, pins: set<string>): Dict {
    Bump(d, pins, LATENCY, 80.0, Int(280))
  }

  function Leg9(d: Dict, pins: set<string>): Dict {
    Bump(d, pins, LATENCY, 220.0, Int(280))
  }

  function Leg10(d: Dict, pins: set<string>): Dict {
    BumpFlag(Bump(d, pins, GATE, -55.0, Real(-75.0)), pins)
  }

  /** The legs a file of the given schema goes through, in order. */
  function Chain(schema: int, d: Dict, pins: set<string>): Dict {
    var d7 := if schema < 7 then Leg7(d, pins) else d;
    var d8 := if schema < 8 then Leg8(d7, pins) else d7;
    var d9 := if schema < 9 then Leg9(d8, pins) else d8;
    if schema < 10 then Leg10(d9, pins) else d9
  }

  lemma NamesDiffer()
    ensures CHUNK != SEARCH && CHUNK != LATENCY && CHUNK != GATE && CHUNK != PW_CAT
    ensures SEARCH != LATENCY && SEARCH != GATE && SEARCH != PW_CAT
    ensures LATENCY != GATE && LATENCY != PW_CAT && GATE != PW_CAT
  {
    assert |CHUNK| == 13 && |GATE| == 15 && |LATENCY| == 17;
    assert SEARCH[0] == 's' && PW_CAT[0] == 'p' && CHUNK[0] == 'c';
  }

  function BumpedAt(pins: set<string>, name: string, was: real, now: Value, k: string, v: Value): Value {
    if k == name && name !in pins && EqualsNumber(v, was) then now else v
  }

  lemma BumpAt(d: Dict, pins: set<string>, name: string, was: real, now: Value, k: string)
    ensures Bump(d, pins, name, was, now).Keys == d.Keys
    ensures k in d ==> Bump(d, pins, name, was, now)[k] == BumpedAt(pins, name, was, now, k, d[k])
  {
  }

  function Seventh(pins: set<string>, k: string, v: Value): Value {
    if k in pins then v
    else if k == CHUNK && EqualsNumber(v, 0.25) then Real(0.25)
    else if k == SEARCH && EqualsNumber(v, 4.0) then Real(16.0)
    else if k == LATENCY && EqualsNumber(v, 300.0) then Int(280)
    else v
  }

  function Tenth(pins: set<string>, k: string, v: Value): Value {
    if k in pins then v
    else if k == GATE && EqualsNumber(v, -55.0) then Real(-75.0)
    else if k == PW_CAT && v == Bool(true) then Bool(false)
    else v
  }

  lemma Leg7At(d: Dict, pins: set<string>, k: string)
    ensures Leg7(d, pins).Keys == d.Keys
    ensures k in d ==> Leg7(d, pins)[k] == Seventh(pins, k, d[k])
  {
    NamesDiffer();
    var a := Bump(d, pins, CHUNK, 0.25, Real(0.25));
    var b := Bump(a, pins, SEARCH, 4.0, Real(16.0));
    BumpAt(d, pins, CHUNK, 0.25, Real(0.25), k);
    BumpAt(a, pins, SEARCH, 4.0, Real(16.0), k);
    BumpAt(b, pins, LATENCY, 300.0, Int(280), k);
    hide Bump, EqualsNumber;
  }

  lemma Leg10At(d: Dict, pins: set<string>, k: string)
    ensures Leg10(d, pins).Keys == d.Keys
    ensures k in d ==> Leg10(d, pins)[k] == Tenth(pins, k, d[k])
  {
    NamesDiffer();
    BumpAt(d, pins, GATE, -55.0, Real(-75.0), k);
    hide Bump, EqualsNumber;
  }

  lemma ChainAt(schema: int, d: Dict, pins: set<string>, k: string)
    ensures Chain(schema, d, pins).Keys == d.Keys
    ensures k in d ==> Chain(schema, d, pins)[k] == Migrated(schema, pins, k, d[k])
  {
    NamesDiffer();
    var d7 := if schema < 7 then Leg7(d, pins) else d;
    var d8 := if schema < 8 then Leg8(d7, pins) else d7;
    var d9 := if schema < 9 then Leg9(d8, pins) else d8;
    Leg7At(d, pins, k);
    BumpAt(d7, pins, LATENCY, 80.0, Int(280), k);
    BumpAt(d8, pins, LATENCY, 220.0, Int(280), k);
    Leg10At(d9, pins, k);
    hide Leg7, Leg10, Bump;
  }

  /** Leg after leg, each gated by the schema, comes to the per-value rule. */
  lemma ChainIsLegs(schema: int, d: Dict, pins: set<string>)
    ensures Chain(schema, d, pins) == Legs(schema, d, pins)
  {
    ChainAt(schema, d, pins, "");
    forall k | k in d ensures Chain(schema, d, pins)[k] == Migrated(schema, pins, k, d[k]) {
      ChainAt(schema, d, pins, k);
    }
    hide Chain, Migrated;
  }

  // ---------- loading ----------

  function Checked(fields: Fields, name: string, v: Value): Value {
    var f := Find(fields, name);
    if f.Some? && !Accepts(f.value.spec, v) then f.value.initial else v
  }

  function Validated(fields: Fields, d: Dict): Dict {
    map k | k in d :: Checked(fields, k, d[k])
  }

  /** Validating the table raises on one of its entries. */
  predicate Raises(fields: Fields, d: Dict) {
    exists k :: k in d && RaisesAt(fields, k, d[k])
  }

  predicate RaisesAt(fields: Fields, name: string, v: Value) {
    var f := Find(fields, name);
    f.Some? && CheckRaises(f.value.spec, v)
  }

  function LoadedProfile(fields: Fields, schema: int, pins: set<string>, d: Dict): Dict {
    Validated(fields, Legs(schema, d, pins))
  }

  /** Profiles that are not tables are dropped; a non-table bag is left alone. */
  function LoadedProfiles(fields: Fields, schema: int, pins: set<string>, bag: Value): Value {
    if !bag.Table? then bag
    else Table(map p | p in bag.entries && bag.entries[p].Table? ::
                 Table(LoadedProfile(fields, schema, pins, bag.entries[p].entries)))
  }

  predicate ProfilesRaise(fields: Fields, schema: int, pins: set<string>, bag: Value) {
    bag.Table? && exists p :: p in bag.entries && ProfileRaises(fields, schema, pins, bag.entries[p])
  }

  predicate ProfileRaises(fields: Fields, schema: int, pins: set<string>, profile: Value) {
    profile.Table? && Raises(fields, Legs(schema, profile.entries, pins))
  }

  /** A missing or non-integer schema counts as 0. */
  function SchemaOf(raw: Dict): int {
    if SCHEMA_KEY in raw && raw[SCHEMA_KEY].Int? then raw[SCHEMA_KEY].number else 0
  }

  function TextsOf(items: seq<Value>): set<string> {
    set v | v in items && v.Str? :: v.text
  }

  /** A lone string pins one field; anything but a string or list pins none. */
  function PinsOf(raw: Dict): set<string> {
    if PINS_KEY !in raw then {}
    else if raw[PINS_KEY].Str? then {raw[PINS_KEY].text}
    else if raw[PINS_KEY].List? then TextsOf(raw[PINS_KEY].items)
    else {}
  }

  function Known(fields: Fields, raw: Dict): Dict {
    map k | k in raw && k in Names(fields) :: raw[k]
  }

  function Unknown(fields: Fields, raw: Dict): Dict {
    map k | k in raw && k !in Names(fields) && k != SCHEMA_KEY && k != PINS_KEY :: raw[k]
  }

  /** The values of the fields, each missing one at its default. */
  function WithDefaults(fields: Fields, d: Dict): Dict {
    map k | k in Names(fields) :: if k in d then d[k] else InitialOf(fields, k)
  }

  function InitialOf(fields: Fields, name: string): Value {
    var f := Find(fields, name);
    if f.Some? then f.value.initial else NonFinite
  }

  /** A configuration in memory: its fields, pins, and everything else. */
  datatype AppConfig = AppConfig(values: Dict, pins: set<string>, extras: Dict)

  function LoadedExtras(fields: Fields, schema: int, pins: set<string>, extras: Dict): Dict {
    if PROFILES_KEY in extras
    then extras[PROFILES_KEY := LoadedProfiles(fields, schema, pins, extras[PROFILES_KEY])]
    else extras
  }

  /** The values of the document's fields after its legs. */
  function Fielded(fields: Fields, raw: Dict): Dict {
    WithDefaults(fields, Legs(SchemaOf(raw), Known(fields, raw), PinsOf(raw)))
  }

  /** What loading a document gives unless it raises. */
  function Loaded(fields: Fields, raw: Dict): AppConfig {
    var schema, pins := SchemaOf(raw), PinsOf(raw);
    AppConfig(Validated(fields, Fielded(fields, raw)), pins, LoadedExtras(fields, schema, pins, Unknown(fields, raw)))
  }

  predicate LoadRaises(fields: Fields, raw: Dict) {
    var extras := Unknown(fields, raw);
    || Raises(fields, Fielded(fields, raw))
    || (PROFILES_KEY in extras && ProfilesRaise(fields, SchemaOf(raw), PinsOf(raw), extras[PROFILES_KEY]))
  }

  function Load(fields: Fields, raw: Dict): Option<AppConfig> {
    if LoadRaises(fields, raw) then None else Some(Loaded(fields, raw))
  }

  /** The pins in some fixed order. */
  ghost function Listed(pins: set<string>): (r: seq<Value>)
    ensures TextsOf(r) == pins
  {
    if pins == {} then []
    else
      var p :| p in pins;
      var rest := Listed(pins - {p});
      assert TextsOf([Str(p)] + rest) == {p} + TextsOf(rest);
      [Str(p)] + rest
  }

  /** The document written to disk. */
  ghost function Save(cfg: AppConfig): Dict {
    cfg.values + cfg.extras + map[SCHEMA_KEY := Int(CURRENT_SCHEMA), PINS_KEY := List(Listed(cfg.pins))]
  }

  // ---------- the procedures ----------

  method RunLegs(schema: int, fieldsIn: Dict, pins: set<string>) returns (d: Dict)
    ensures d.Keys == fieldsIn.Keys
    ensures forall k :: k in fieldsIn ==> d[k] == Migrated(schema, pins, k, fieldsIn[k])
    ensures d == Legs(schema, fieldsIn, pins)
  {
    ChainIsLegs(schema, fieldsIn, pins);
    hide Migrated, Bump, BumpFlag;
    d := fieldsIn;
    if schema < 7 {
      d := Bump(d, pins, CHUNK, 0.25, Real(0.25));
      d := Bump(d, pins, SEARCH, 4.0, Real(16.0));
      d := Bump(d, pins, LATENCY, 300.0, Int(280));
    }
    if schema < 8 {
      d := Bump(d, pins, LATENCY, 80.0, Int(280));
    }
    if schema < 9 {
      d := Bump(d, pins, LATENCY, 220.0, Int(280));
    }
    if schema < 10 {
      d := Bump(d, pins, GATE, -55.0, Real(-75.0));
      d := BumpFlag(d, pins);
    }
  }

  /** Resets every unacceptable value, one key at a time; None when a check
      raises. */
  method Validate(fields: Fields, d: Dict) returns (r: Option<Dict>)
    ensures r == if Raises(fields, d) then None else Some(Validated(fields, d))
  {
    hide Checked, RaisesAt;
    var now := d;
    var todo := d.Keys;
    while todo != {}
      invariant todo <= d.Keys == now.Keys
      invariant forall k :: k in d ==> now[k] == if k in todo then d[k] else Checked(fields, k, d[k])
      invariant forall k :: k in d && k !in todo ==> !RaisesAt(fields, k, d[k])
      decreases |todo|
    {
      var k :| k in todo;
      if RaisesAt(fields, k, d[k]) {
        return None;
      }
      now := now[k := Checked(fields, k, d[k])];
      todo := todo - {k};
    }
    assert now == Validated(fields, d);
    r := Some(now);
  }

  /** Migrates and validates each profile in turn, dropping what is no table. */
  method LoadProfiles(fields: Fields, schema: int, pins: set<string>, bag: Dict) returns (r: Option<Dict>)
    ensures r.None? <==> ProfilesRaise(fields, schema, pins, Table(bag))
    ensures r.Some? ==> Table(r.value) == LoadedProfiles(fields, schema, pins, Table(bag))
  {
    hide LoadedProfile, ProfileRaises;
    var now: Dict := map[];
    var todo := bag.Keys;
    while todo != {}
      invariant todo <= bag.Keys
      invariant now == map p | p in bag && p !in todo && bag[p].Table? :: Table(LoadedProfile(fields, schema, pins, bag[p].entries))
      invariant forall p :: p in bag && p !in todo ==> !ProfileRaises(fields, schema, pins, bag[p])
      decreases |todo|
    {
      var p :| p in todo;
      ProfileIs(fields, schema, pins, bag[p]);
      if bag[p].Table? {
        var migrated := RunLegs(schema, bag[p].entries, pins);
        var checked := Validate(fields, migrated);
        if checked.None? {
          return None;
        }
        now := now[p := Table(checked.value)];
      }
      todo := todo - {p};
    }
    r := Some(now);
  }

  lemma ProfileIs(fields: Fields, schema: int, pins: set<string>, v: Value)
    ensures v.Table? ==> LoadedProfile(fields, schema, pins, v.entries) == Validated(fields, Legs(schema, v.entries, pins))
    ensures ProfileRaises(fields, schema, pins, v) <==> v.Table? && Raises(fields, Legs(schema, v.entries, pins))
  {
  }

  method LoadConfig(fields: Fields, raw: Dict) returns (cfg: Option<AppConfig>)
    ensures cfg == Load(fields, raw)
  {
    hide Legs, Validated, LoadedProfiles, Raises, ProfilesRaise;
    var schema, pins := SchemaOf(raw), PinsOf(raw);
    var extras := Unknown(fields, raw);
    var values := RunLegs(schema, Known(fields, raw), pins);
    var checked := Validate(fields, WithDefaults(fields, values));
    if checked.None? {
      return None;
    }
    if PROFILES_KEY in extras && extras[PROFILES_KEY].Table? {
      var profiles := LoadProfiles(fields, schema, pins, extras[PROFILES_KEY].entries);
      if profiles.None? {
        return None;
      }
      extras := extras[PROFILES_KEY := Table(profiles.value)];
    } else if PROFILES_KEY in extras {
      NoProfiles(fields, schema, pins, extras[PROFILES_KEY]);
      assert extras[PROFILES_KEY := extras[PROFILES_KEY]] == extras;
    }
    cfg := Some(AppConfig(checked.value, pins, extras));
  }

  lemma NoProfiles(fields: Fields, schema: int, pins: set<string>, bag: Value)
    requires !bag.Table?
    ensures LoadedProfiles(fields, schema, pins, bag) == bag && !ProfilesRaise(fields, schema, pins, bag)
  {
  }
}
