// The fields woys ships with: what each accepts and its default.
module ConfigFields {
  import opened Samples
  import opened Toml
  import opened Config
  import opened ConfigLaws

  const RATES: set<int> := {8000, 16000, 22050, 24000, 32000, 44100, 48000, 88200, 96000}

  /** The fields whose defaults have moved over time. */
  const MIGRATED: Fields := [
    Field("chunk_seconds", FloatRange(0.01, 2.0), Real(0.25)),
    Field("sola_search_ms", FloatRange(0.0, 500.0), Real(16.0)),
    Field("output_latency_ms", IntRange(10, 5000), Int(280)),
    Field("input_gate_dbfs", FloatRange(-200.0, 0.0), Real(-75.0)),
    Field("prefer_pw_cat", Flag, Bool(false))
  ]

  const TEXTS: Fields := [
    Field("rvc_model", Text, Str("")),
    Field("sink_name", Text, Str("WoysSink")),
    Field("embedder", TextIn({"onnx"}), Str("onnx")),
    Field("gpu_anti_jitter_mode", TextIn({"off", "keepalive", "clock_lock", "both"}), Str("off"))
  ]

  const NUMBERS: Fields := [
    Field("f0_up_key", IntRange(-24, 24), Int(0)),
    Field("sid", IntRange(0, 1000), Int(0)),
    Field("mic_rate", IntIn(RATES), Int(48000)),
    Field("sink_rate", IntIn(RATES), Int(48000)),
    Field("output_process_time_ms", IntRange(1, 5000), Int(20)),
    Field("sola_crossfade_ms", FloatRange(0.0, 500.0), Real(50.0)),
    Field("sola_context_ms", FloatRange(0.0, 2000.0), Real(200.0)),
    Field("input_gain_db", FloatRange(-60.0, 30.0), Real(0.0)),
    Field("input_gate_hysteresis_ms", FloatRange(0.0, 5000.0), Real(200.0)),
    Field("prefer_native_pw_buffer_ms", IntRange(0, 5000), Int(0))
  ]

  const GPU_NUMBERS: Fields := [
    Field("gpu_keepalive_interval_ms", IntRange(1, 10000), Int(25)),
    Field("gpu_keepalive_input_len", IntRange(1, 100000), Int(1600)),
    Field("gpu_keepalive_torch_interval_ms", IntRange(1, 10000), Int(25)),
    Field("gpu_clock_lock_floor_mhz", IntRange(0, 5000), Int(0)),
    Field("gpu_clock_lock_ceiling_mhz", IntRange(0, 5000), Int(0)),
    Field("gpu_clock_lock_floor_offset_mhz", IntRange(-5000, 5000), Int(255))
  ]

  const FLAGS: Fields := [
    Field("monitor", Flag, Bool(false)),
    Field("sola_enabled", Flag, Bool(true)),
    Field("prefer_native_pw", Flag, Bool(true)),
    Field("autostart_engine", Flag, Bool(false)),
    Field("gpu_keepalive_enabled", Flag, Bool(false)),
    Field("gpu_clock_lock_enabled", Flag, Bool(false)),
    Field("gpu_keepalive_torch_stream", Flag, Bool(false))
  ]

  const SHIPPED: Fields := MIGRATED + TEXTS + NUMBERS + GPU_NUMBERS + FLAGS

  /** Acceptable default, and no managed key's name. */
  predicate FieldSound(f: Field) {
    Accepts(f.spec, f.initial) && f.name != SCHEMA_KEY && f.name != PINS_KEY && f.name != PROFILES_KEY
  }

  predicate AllSound(fields: Fields) {
    forall i :: 0 <= i < |fields| ==> FieldSound(fields[i])
  }

  lemma MigratedSound()
    ensures AllSound(MIGRATED)
  {
  }

  lemma TextsSound()
    ensures AllSound(TEXTS)
  {
  }

  lemma NumbersSound()
    ensures AllSound(NUMBERS)
  {
  }

  lemma GpuNumbersSound()
    ensures AllSound(GPU_NUMBERS)
  {
  }

  lemma FlagsSound()
    ensures AllSound(FLAGS)
  {
  }

  lemma ShippedAllSound()
    ensures AllSound(SHIPPED)
  {
    MigratedSound();
    TextsSound();
    NumbersSound();
    GpuNumbersSound();
    FlagsSound();
    hide FieldSound;
  }

  /** Every shipped default passes its own field's check, so the laws of loading
      apply to the shipped fields. */
  lemma ShippedIsSound()
    ensures Sound(SHIPPED)
  {
    ShippedAllSound();
    SoundIs(SHIPPED);
  }

  lemma SoundIs(fields: Fields)
    requires AllSound(fields)
    ensures Sound(fields)
  {
  }

  /** What the legs put in place of an old default is the field's own default. */
  lemma LegsMatchDefaults(name: string)
    requires name in {CHUNK, SEARCH, LATENCY, GATE, PW_CAT}
    ensures Find(SHIPPED, name).Some? && Find(SHIPPED, name).value.initial == NewDefault(name)
  {
    NamesDiffer();
    forall i | 0 <= i < |MIGRATED| ensures SHIPPED[i] == MIGRATED[i] {
    }
    var i := if name == CHUNK then 0 else if name == SEARCH then 1 else if name == LATENCY then 2 else if name == GATE then 3 else 4;
    assert SHIPPED[i].name == name;
    FindAt(SHIPPED, i);
  }

  /** An integer chunk length outside its range makes loading raise from a size of
      2^1024 - 2^970 on, and is reset below. */
  lemma HugeChunkRaises(n: int)
    requires n < 1 || n > 2
    ensures var cfg := Load(SHIPPED, map[CHUNK := Int(n)]);
      && (cfg.None? <==> n <= -FLOAT_LIMIT || FLOAT_LIMIT <= n)
      && (cfg.Some? ==> CHUNK in cfg.value.values && cfg.value.values[CHUNK] == Real(0.25))
  {
    if -FLOAT_LIMIT < n < FLOAT_LIMIT {
      ChunkReset(map[CHUNK := Int(n)]);
    } else {
      ChunkTooLarge(map[CHUNK := Int(n)], n);
    }
    hide Load;
  }

  lemma ChunkTooLarge(raw: Dict, n: int)
    requires CHUNK in raw && raw[CHUNK] == Int(n) && (n <= -FLOAT_LIMIT || FLOAT_LIMIT <= n)
    ensures Load(SHIPPED, raw).None?
  {
    ShippedIsSound();
    ChunkIs();
    assert RaisesAt(SHIPPED, CHUNK, raw[CHUNK]);
    LoadRaisesExactly(SHIPPED, raw);
    hide Find, Sound, Load;
  }

  /** A document with one entry, an integer chunk length that is out of range. */
  predicate OnlyChunk(raw: Dict) {
    raw.Keys == {CHUNK} && raw[CHUNK].Int? && (raw[CHUNK].number < 1 || raw[CHUNK].number > 2)
  }

  lemma ChunkReset(raw: Dict)
    requires OnlyChunk(raw) && -FLOAT_LIMIT < raw[CHUNK].number < FLOAT_LIMIT
    ensures var cfg := Load(SHIPPED, raw);
      cfg.Some? && CHUNK in cfg.value.values && cfg.value.values[CHUNK] == Real(0.25)
  {
    ShippedIsSound();
    ChunkIs();
    LoadRaisesExactly(SHIPPED, raw);
    ChunkAlone(SHIPPED, raw);
    LargeIsReset(SHIPPED, raw);
    LoadedWhenSome(SHIPPED, raw);
    hide *;
  }

  lemma ChunkAlone(fields: Fields, raw: Dict)
    requires Find(fields, CHUNK) == Some(Field(CHUNK, FloatRange(0.01, 2.0), Real(0.25)))
    requires OnlyChunk(raw) && -FLOAT_LIMIT < raw[CHUNK].number < FLOAT_LIMIT
    ensures !HoldsTooLarge(fields, raw)
  {
    ProfilesAreElsewhere();
    assert PROFILES_KEY !in raw;
    hide Find;
  }

  lemma ProfilesAreElsewhere()
    ensures CHUNK != PROFILES_KEY && CHUNK != SCHEMA_KEY && CHUNK != PINS_KEY
  {
    assert |CHUNK| == 13 && |PROFILES_KEY| == 8 && |SCHEMA_KEY| == 21 && |PINS_KEY| == 15;
  }

  lemma ChunkIs()
    ensures Find(SHIPPED, CHUNK) == Some(Field(CHUNK, FloatRange(0.01, 2.0), Real(0.25)))
  {
    FindAt(SHIPPED, 0);
  }

  lemma LargeIsReset(fields: Fields, raw: Dict)
    requires Find(fields, CHUNK) == Some(Field(CHUNK, FloatRange(0.01, 2.0), Real(0.25)))
    requires OnlyChunk(raw)
    ensures CHUNK in Loaded(fields, raw).values && Loaded(fields, raw).values[CHUNK] == Real(0.25)
  {
    NamesDiffer();
    FoundIsNamed(fields, CHUNK);
    hide Find, Names, SchemaOf, PinsOf;
  }
}
