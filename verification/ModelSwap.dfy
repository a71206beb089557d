// Swapping the voice model inside the engine process: load, probe, commit or
// roll back, and keep the crossfader, the output resampler and the rate cache
// consistent with the voice that is running.
module ModelSwap {
  import opened Samples
  import opened Resample
  import Sola

  /** A loaded session remembers the file it was built from, by its resolved path. */
  datatype Session = Session(path: string)

  /** The crossfader, as far as a swap touches it: its rate and held tail. */
  datatype Crossfader = Crossfader(rate: nat, held: seq<real>)

  /** The model files on disk: each one's output rate and input precision, and
      the canonical path behind each path. */
  datatype Files = Files(rateOf: string -> nat, halfOf: string -> bool, resolve: string -> string)

  ghost predicate Lawful(files: Files) {
    forall p: string :: files.rateOf(files.resolve(p)) == files.rateOf(p) && files.halfOf(files.resolve(p)) == files.halfOf(p)
  }

  /** One swap as the outside world decides it: whether the file loads, whether
      a probe succeeds, and what the filter returns while the tail drains. */
  datatype Attempt = Attempt(target: string, loads: bool, probes: bool,
    processed: Option<seq<real>>, flushed: Option<seq<real>>)

  /** What a drained tail sounds like at the sink: all of it, or nothing when the
      filter raises on the way. */
  function PlayedTail(tail: seq<real>, a: Attempt, identity: bool, done: nat, total: nat): Option<seq<real>> {
    if identity then Some(Faded(tail, done, total))
    else if a.processed.None? || a.flushed.None? then None
    else
      var p, f := a.processed.value, a.flushed.value;
      Some(Faded(p, done, total) + Faded(f, Consumed(done, |p|, total), total))
  }

  /** One voice of the library as it is warmed. */
  datatype Warming = Warming(path: string, loads: bool, probes: bool)

  predicate AllLoad(library: seq<Warming>) {
    forall i :: 0 <= i < |library| ==> library[i].loads
  }

  /** The paths whose rate warming the library learns; it ends at the first file
      that does not load. */
  function WarmedPaths(files: Files, library: seq<Warming>): set<string> {
    if library == [] || !library[0].loads then {}
    else (if library[0].probes then {files.resolve(library[0].path)} else {}) + WarmedPaths(files, library[1..])
  }

  /** Warming learns the rate of this path from entry i. */
  predicate LearnedFrom(files: Files, library: seq<Warming>, i: nat, path: string) {
    && i < |library| && files.resolve(library[i].path) == path && library[i].probes
    && AllLoad(library[..i + 1])
  }

  lemma {:induction false} WarmedPathsAre(files: Files, library: seq<Warming>, path: string)
    ensures path in WarmedPaths(files, library) <==> exists i: nat :: LearnedFrom(files, library, i, path)
  {
    if library != [] {
      WarmedPathsAre(files, library[1..], path);
      if i: nat :| LearnedFrom(files, library, i, path) {
        InRange(files, library, i, path);
        LearnedLater(files, library, i, path);
      }
      if i: nat :| LearnedFrom(files, library[1..], i, path) {
        InRange(files, library[1..], i, path);
        LearnedLater(files, library, i + 1, path);
      }
      LearnedLater(files, library, 0, path);
      hide LearnedFrom;
    } else {
      assert forall i: nat :: !LearnedFrom(files, library, i, path);
    }
  }

  lemma InRange(files: Files, library: seq<Warming>, i: nat, path: string)
    requires LearnedFrom(files, library, i, path)
    ensures i < |library|
  {
  }

  lemma LearnedLater(files: Files, library: seq<Warming>, i: nat, path: string)
    requires i < |library|
    ensures LearnedFrom(files, library, i, path) <==>
      library[0].loads
      && if i == 0 then files.resolve(library[0].path) == path && library[0].probes
         else LearnedFrom(files, library[1..], i - 1, path)
  {
    assert library[..i + 1] == [library[0]] + library[1..][..i];
  }

  /** One chunk as the rest of the pipeline decides it: silenced by the gate, lost
      to a failing inference, or voiced. A voiced one leaves a new tail with the
      crossfader and gives audio to the resampler, whose filter returns or raises. */
  datatype Chunk = Gated(silence: seq<real>) | Dropped | Voiced(held: seq<real>, audio: seq<real>, filtered: Option<seq<real>>)

  /** The resampler raises on the chunk, which ends the loop. */
  predicate ChunkRaises(c: Chunk, identity: bool) {
    c.Voiced? && c.audio != [] && !identity && c.filtered.None?
  }

  /** What the loop does at one turn. */
  datatype Step = Swap(attempt: Attempt) | Play(chunk: Chunk)

  /** The configured voice, and the paths whose rate is known. */
  datatype Standing = Standing(voice: string, known: set<string>)

  function AfterSwap(files: Files, st: Standing, a: Attempt): Standing {
    var path := files.resolve(a.target);
    if a.loads && (path in st.known || a.probes) then Standing(a.target, st.known + {path}) else st
  }

  /** The standing after some turns. */
  function After(files: Files, st: Standing, steps: seq<Step>): Standing {
    if steps == [] then st
    else
      var prev, last := After(files, st, steps[..|steps| - 1]), steps[|steps| - 1];
      if last.Swap? then AfterSwap(files, prev, last.attempt) else prev
  }

  /** A drained tail is what the filter gave back for it, in order, under one
      ramp; at equal rates the tail itself; and nothing once the filter raises. */
  lemma PlayedTailIs(tail: seq<real>, a: Attempt, identity: bool, done: nat, total: nat)
    requires done <= total
    ensures PlayedTail(tail, a, identity, done, total) ==
      if identity then Some(Faded(tail, done, total))
      else if a.processed.Some? && a.flushed.Some? then Some(Faded(a.processed.value + a.flushed.value, done, total))
      else None
  {
    if !identity && a.processed.Some? && a.flushed.Some? {
      FadedOn(a.processed.value, a.flushed.value, done, total);
    }
    hide Faded, Consumed;
  }

  class Engine {
    const files: Files
    const solaEnabled: bool
    const sinkRate: nat
    var rvcModel: string
    /** The loaded session, once there is one. */
    var rvc: Option<Session>
    var isHalf: bool
    var rvcOutputSr: nat
    var sola: Option<Crossfader>
    var resampler: StreamResampler?
    var srCache: map<string, nat>
    /** Blocks handed to the writer queue. */
    var written: seq<seq<real>>

    /** The running session is the configured voice's, at its rate. */
    ghost predicate VoiceConsistent()
      reads this
    {
      && rvc == Some(Session(files.resolve(rvcModel))) && isHalf == files.halfOf(rvcModel)
      && rvcOutputSr == files.rateOf(rvcModel)
    }

    ghost predicate CacheTrue()
      reads this
    {
      forall p :: p in srCache ==> srCache[p] == files.rateOf(p)
    }

    ghost predicate SolaAt(rate: nat)
      reads this
    {
      if solaEnabled then sola.Some? && sola.value.rate == rate else sola.None?
    }

    /** The resampler, once there is one, takes the engine's output rate and can
        take the next chunk. */
    ghost predicate ResamplerReady()
      reads this, resampler
    {
      resampler != null ==>
        resampler.Valid() && resampler.srcRate == rvcOutputSr && resampler.dstRate == sinkRate && !resampler.finalised
    }

    ghost predicate Consistent()
      reads this, resampler
    {
      Lawful(files) && VoiceConsistent() && CacheTrue() && SolaAt(rvcOutputSr) && ResamplerReady()
    }

    /** The engine between two runs. */
    ghost predicate Stopped()
      reads this
    {
      Lawful(files) && CacheTrue() && rvc.None?
    }

    function Current(): Standing
      reads this
    {
      Standing(rvcModel, srCache.Keys)
    }

    constructor (files: Files, solaEnabled: bool, sinkRate: nat, model: string)
      requires Lawful(files)
      ensures Stopped() && rvcModel == model && srCache == map[] && written == [] && resampler == null
      ensures rvcOutputSr == 16000 && sola == if solaEnabled then Some(Crossfader(16000, [])) else None
      ensures this.files == files && this.solaEnabled == solaEnabled && this.sinkRate == sinkRate
    {
      this.files, this.solaEnabled, this.sinkRate := files, solaEnabled, sinkRate;
      rvcModel, rvc, isHalf, rvcOutputSr := model, None, false, 16000;
      sola := if solaEnabled then Some(Crossfader(16000, [])) else None;
      resampler, srCache, written := null, map[], [];
    }

    // ---------- probing ----------

    /** Runs the session in `rvc` once; a wrong input precision makes it fail. */
    method ProbeOutputSr(works: bool) returns (sr: Option<nat>)
      requires rvc.Some?
      ensures sr == if works && isHalf == files.halfOf(rvc.value.path) then Some(files.rateOf(rvc.value.path)) else None
    {
      sr := if works && isHalf == files.halfOf(rvc.value.path) then Some(files.rateOf(rvc.value.path)) else None;
    }

    /** Probes another voice through the engine's session fields and puts them
        back, whether or not the probe fails. */
    method ProbeSrFor(path: string, loads: bool, works: bool) returns (sr: Option<nat>)
      requires Lawful(files)
      modifies `rvc, `isHalf
      ensures rvc == old(rvc) && isHalf == old(isHalf)
      ensures sr == if loads && works then Some(files.rateOf(path)) else None
    {
      if !loads {
        return None;
      }
      var prevRvc, prevIsHalf := rvc, isHalf;
      rvc := Some(Session(files.resolve(path)));
      isHalf := files.halfOf(rvc.value.path);
      sr := ProbeOutputSr(works);
      rvc, isHalf := prevRvc, prevIsHalf;
    }

    /** Warms one voice of the library: its rate is cached when the probe works,
        and a failing probe is swallowed; a file that does not load raises. */
    method WarmVoice(w: Warming) returns (ok: bool)
      requires Lawful(files) && CacheTrue()
      modifies `rvc, `isHalf, `srCache
      ensures rvc == old(rvc) && isHalf == old(isHalf) && CacheTrue()
      ensures ok == w.loads
      ensures srCache == if w.loads && w.probes then old(srCache)[files.resolve(w.path) := files.rateOf(w.path)] else old(srCache)
    {
      if !w.loads {
        return false;
      }
      var sr := ProbeSrFor(w.path, w.loads, w.probes);
      if sr.Some? {
        srCache := srCache[files.resolve(w.path) := sr.value];
      }
      return true;
    }

    /** Warms the library, up to the first file that does not load. */
    method WarmLibrary(library: seq<Warming>) returns (ok: bool)
      requires Lawful(files) && CacheTrue()
      modifies `rvc, `isHalf, `srCache
      ensures rvc == old(rvc) && isHalf == old(isHalf) && CacheTrue()
      ensures ok == AllLoad(library)
      ensures srCache.Keys == old(srCache.Keys) + WarmedPaths(files, library)
    {
      for k := 0 to |library|
        invariant rvc == old(rvc) && isHalf == old(isHalf) && CacheTrue() && AllLoad(library[..k])
        invariant srCache.Keys + WarmedPaths(files, library[k..]) == old(srCache.Keys) + WarmedPaths(files, library)
      {
        assert library[k..][0] == library[k] && library[k..][1..] == library[k + 1..];
        ok := WarmVoice(library[k]);
        if !ok {
          return;
        }
      }
      return true;
    }

    /** Recreates the crossfader for a rate; nothing to do at the same rate. */
    method RebuildSolaForRate(modelSr: nat)
      modifies `sola
      ensures SolaAt(modelSr)
      ensures old(sola).Some? && old(sola).value.rate == modelSr && solaEnabled ==> sola == old(sola)
    {
      if !solaEnabled {
        sola := None;
        return;
      }
      if sola.Some? && sola.value.rate == modelSr {
        return;
      }
      sola := Some(Crossfader(modelSr, []));
    }

    /** The output rate of the session in `rvc`, remembered under its path. */
    method CachedRvcSr(path: string, works: bool) returns (sr: Option<nat>)
      requires Lawful(files) && CacheTrue() && rvc == Some(Session(files.resolve(path))) && isHalf == files.halfOf(path)
      modifies `srCache, `sola
      ensures CacheTrue()
      ensures sr == if files.resolve(path) in old(srCache) || works then Some(files.rateOf(path)) else None
      ensures srCache == if sr.Some? then old(srCache)[files.resolve(path) := files.rateOf(path)] else old(srCache)
      ensures if sr.Some? then SolaAt(sr.value) else sola == old(sola)
    {
      var key := files.resolve(path);
      if key in srCache {
        sr := Some(srCache[key]);
      } else {
        sr := ProbeOutputSr(works);
        if sr.None? {
          return;
        }
        srCache := srCache[key := sr.value];
      }
      RebuildSolaForRate(sr.value);
    }

    // ---------- one swap ----------

    /** The resampler is the one before, or a new one about to fade in over 5 ms. */
    twostate predicate SwappedResampler(before: StreamResampler?)
      reads this, resampler
    {
      && (before != null ==> resampler != null)
      && (resampler != null && resampler != before ==>
        fresh(resampler) && resampler.Valid() && resampler.FadeDone() == 0 && resampler.coldFadeTotal == sinkRate / 200)
    }

    /** The audio the swap's flush plays: the faded tail through the old resampler. */
    ghost function TailAudio(a: Attempt): Option<seq<real>>
      requires resampler != null ==> resampler.Valid()
      reads this, resampler
    {
      if sola.None? || sola.value.held == [] || resampler == null then None
      else PlayedTail(Sola.FadedTail(sola.value.held), a, resampler.srcRate == resampler.dstRate,
                      resampler.FadeDone(), resampler.coldFadeTotal)
    }

    /** Plays out the crossfader's held tail through the old resampler. Returns
        whether that finalised the resampler; any exception is swallowed. */
    method FlushTail(a: Attempt) returns (wasFlushed: bool)
      requires Consistent()
      modifies `sola, `written, resampler
      ensures SolaAt(rvcOutputSr) && (sola.Some? ==> sola.value.held == [])
      ensures resampler != null ==> resampler.Valid() && (resampler.finalised ==> wasFlushed)
      ensures wasFlushed == old(TailAudio(a)).Some?
      ensures var audio := old(TailAudio(a));
        written == old(written) + if audio.Some? && audio.value != [] then [audio.value] else []
    {
      wasFlushed := false;
      if sola.None? {
        return;
      }
      var tail := Sola.FadedTail(sola.value.held);
      sola := Some(sola.value.(held := []));
      if |tail| == 0 || resampler == null {
        return;
      }
      var processed := resampler.Process(tail, a.processed);
      if processed.None? {
        return;
      }
      var flushed := resampler.Flush(a.flushed);
      if flushed.None? {
        return;
      }
      wasFlushed := true;
      var full := processed.value + flushed.value;
      assert flushed.value == [] ==> full == processed.value;
      assert old(TailAudio(a)) == Some(full);
      if |full| > 0 {
        written := written + [full];
      }
    }

    method NewResampler(sr: nat)
      modifies `resampler
      ensures resampler != null && fresh(resampler)
      ensures resampler.Valid() && resampler.srcRate == sr && resampler.dstRate == sinkRate && !resampler.finalised
      ensures resampler.FadeDone() == 0 && resampler.coldFadeTotal == sinkRate / 200
    {
      resampler := new StreamResampler(sr, sinkRate, sinkRate / 200);
    }

    method ResetStreamingState()
      modifies `sola
      ensures sola == if old(sola).Some? then Some(old(sola).value.(held := [])) else None
    {
      if sola.Some? {
        sola := Some(sola.value.(held := []));
      }
    }

    /** The in-process swap: on success the target runs, on failure the old voice
        goes on, and either way the next chunk meets a consistent engine. */
    method ApplyOneSwap(a: Attempt) returns (ok: bool)
      requires Consistent()
      modifies this, resampler
      ensures Consistent() && SwappedResampler(old(resampler))
      ensures ok == (a.loads && (files.resolve(a.target) in old(srCache) || a.probes))
      ensures rvcModel == if ok then a.target else old(rvcModel)
      ensures srCache == if ok then old(srCache)[files.resolve(a.target) := files.rateOf(a.target)] else old(srCache)
      ensures sola.Some? ==> sola.value.held == []
      ensures var audio := old(TailAudio(a));
        written == old(written) + if audio.Some? && audio.value != [] then [audio.value] else []
      ensures resampler != old(resampler) <==>
        old(TailAudio(a)).Some? || (ok && files.rateOf(a.target) != old(rvcOutputSr))
    {
      hide PlayedTail;
      var wasFlushed := FlushTail(a);
      ok := SwapSession(a.target, a.loads, a.probes, wasFlushed);
      ResetStreamingState();
    }

    /** Everything after the flush. */
    method SwapSession(target: string, loads: bool, probes: bool, wasFlushed: bool) returns (ok: bool)
      requires Lawful(files) && VoiceConsistent() && CacheTrue() && SolaAt(rvcOutputSr)
      requires resampler != null ==> resampler.Valid() && resampler.srcRate == rvcOutputSr && resampler.dstRate == sinkRate
      requires resampler != null && resampler.finalised ==> wasFlushed
      modifies this
      ensures Consistent() && SwappedResampler(old(resampler))
      ensures ok == (loads && (files.resolve(target) in old(srCache) || probes))
      ensures rvcModel == if ok then target else old(rvcModel)
      ensures srCache == if ok then old(srCache)[files.resolve(target) := files.rateOf(target)] else old(srCache)
      ensures written == old(written)
      ensures resampler != old(resampler) <==> wasFlushed || (ok && files.rateOf(target) != old(rvcOutputSr))
    {
      var prevRvc, prevIsHalf := rvc, isHalf;
      var newSr := None;
      if loads {
        rvc := Some(Session(files.resolve(target)));
        isHalf := files.halfOf(rvc.value.path);
        newSr := CachedRvcSr(target, probes);
      }
      ok := newSr.Some?;
      if ok {
        Commit(target, newSr.value, wasFlushed);
      } else {
        RollBack(prevRvc, prevIsHalf, wasFlushed);
      }
    }

    /** The target did not load or probe: put the old voice back. */
    method RollBack(prevRvc: Option<Session>, prevIsHalf: bool, wasFlushed: bool)
      requires Lawful(files) && CacheTrue() && SolaAt(rvcOutputSr)
      requires prevRvc == Some(Session(files.resolve(rvcModel))) && prevIsHalf == files.halfOf(rvcModel) && rvcOutputSr == files.rateOf(rvcModel)
      requires resampler != null ==> resampler.Valid() && resampler.srcRate == rvcOutputSr && resampler.dstRate == sinkRate
      requires resampler != null && resampler.finalised ==> wasFlushed
      modifies `rvc, `isHalf, `sola, `resampler
      ensures Consistent() && SwappedResampler(old(resampler))
      ensures resampler != old(resampler) <==> wasFlushed
    {
      rvc, isHalf := prevRvc, prevIsHalf;
      RebuildSolaForRate(rvcOutputSr);
      if wasFlushed {
        NewResampler(rvcOutputSr);
      }
    }

    /** The target has loaded and has a rate: make it the running voice. */
    method Commit(target: string, newSr: nat, wasFlushed: bool)
      requires Lawful(files) && CacheTrue() && SolaAt(newSr)
      requires rvc == Some(Session(files.resolve(target))) && isHalf == files.halfOf(target) && newSr == files.rateOf(target)
      requires resampler != null ==> resampler.Valid() && resampler.srcRate == rvcOutputSr && resampler.dstRate == sinkRate
      requires resampler != null && resampler.finalised ==> wasFlushed
      modifies `rvcModel, `resampler, `rvcOutputSr
      ensures Consistent() && rvcModel == target && SwappedResampler(old(resampler))
      ensures resampler != old(resampler) <==> wasFlushed || newSr != old(rvcOutputSr)
    {
      rvcModel := target;
      if newSr != rvcOutputSr || wasFlushed {
        NewResampler(newSr);
      }
      rvcOutputSr := newSr;
    }

    /** Applies drained requests in order. */
    method ApplySwaps(attempts: seq<Attempt>) returns (results: seq<bool>)
      requires Consistent()
      modifies this, resampler
      ensures Consistent()
      ensures |results| == |attempts|
      ensures rvcModel == LastApplied(attempts, results, old(rvcModel))
      ensures rvcOutputSr == files.rateOf(rvcModel)
    {
      results := [];
      ghost var before := rvcModel;
      for k := 0 to |attempts|
        invariant Consistent() && (resampler != null ==> resampler == old(resampler) || fresh(resampler))
        invariant |results| == k && rvcModel == LastApplied(attempts[..k], results, before)
      {
        var ok := ApplyOneSwap(attempts[k]);
        results := results + [ok];
        assert attempts[..k + 1][..k] == attempts[..k] && results[..k] + [ok] == results;
      }
      assert attempts[..|attempts|] == attempts;
    }

    // ---------- a whole run ----------

    /** Loads the configured voice; raises when it does not load or its rate cannot
        be probed. */
    method EnsureSessions(loads: bool, probes: bool) returns (ok: bool)
      requires Lawful(files) && CacheTrue() && (rvc.Some? ==> VoiceConsistent() && SolaAt(rvcOutputSr))
      modifies `rvc, `isHalf, `rvcOutputSr, `srCache, `sola
      ensures CacheTrue() && (ok ==> VoiceConsistent() && SolaAt(rvcOutputSr))
      ensures ok == (old(rvc).Some? || (loads && (files.resolve(rvcModel) in old(srCache) || probes)))
      ensures srCache.Keys == old(srCache.Keys) + if old(rvc).None? && ok then {files.resolve(rvcModel)} else {}
    {
      if rvc.Some? {
        return true;
      }
      if !loads {
        return false;
      }
      rvc := Some(Session(files.resolve(rvcModel)));
      isHalf := files.halfOf(rvc.value.path);
      var sr := CachedRvcSr(rvcModel, probes);
      if sr.None? {
        return false;
      }
      rvcOutputSr := sr.value;
      return true;
    }

    /** The head of the loop: no tail from an earlier run, and a fresh resampler at
        the voice's rate, with no fade. */
    method BeginLoop()
      requires Lawful(files) && VoiceConsistent() && CacheTrue() && SolaAt(rvcOutputSr)
      modifies `sola, `resampler
      ensures Consistent() && resampler != null && fresh(resampler) && (sola.Some? ==> sola.value.held == [])
    {
      ResetStreamingState();
      resampler := new StreamResampler(rvcOutputSr, sinkRate, 0);
    }

    /** One chunk: what is written goes through a resampler from the running
        voice's own rate to the sink's. False when the filter raised. */
    method PlayChunk(c: Chunk) returns (alive: bool)
      requires Consistent() && resampler != null
      modifies `sola, `written, resampler
      ensures Consistent()
      ensures resampler.srcRate == files.rateOf(rvcModel) && resampler.dstRate == sinkRate
      ensures alive == !(c.Voiced? && c.audio != [] && resampler.srcRate != resampler.dstRate && c.filtered.None?)
      ensures c.Gated? ==> written == old(written) + [c.silence]
      ensures c.Dropped? || (c.Voiced? && (c.audio == [] || !alive)) ==> written == old(written)
      ensures c.Voiced? && c.audio != [] && alive ==>
        var audio := Faded(if resampler.srcRate == resampler.dstRate then c.audio else c.filtered.value,
                           old(resampler.FadeDone()), resampler.coldFadeTotal);
        written == old(written) + if audio != [] then [audio] else []
      ensures sola == if c.Voiced? && old(sola).Some? then Some(old(sola).value.(held := c.held)) else old(sola)
    {
      if c.Dropped? {
        return true;
      }
      if c.Gated? {
        written := written + [c.silence];
        return true;
      }
      if sola.Some? {
        sola := Some(sola.value.(held := c.held));
      }
      if |c.audio| == 0 {
        return true;
      }
      var out := resampler.Process(c.audio, c.filtered);
      if out.None? {
        return false;
      }
      if |out.value| > 0 {
        written := written + [out.value];
      }
      return true;
    }

    /** The loop, until it is told to stop or a filter raises. Between any two
        turns the engine is consistent. */
    method Loop(steps: seq<Step>) returns (turns: nat)
      requires Consistent() && resampler != null
      modifies this, resampler
      ensures Consistent() && resampler != null && (resampler == old(resampler) || fresh(resampler))
      ensures turns <= |steps|
      ensures turns < |steps| ==> steps[turns].Play? && ChunkRaises(steps[turns].chunk, files.rateOf(rvcModel) == sinkRate)
      ensures Current() == After(files, old(Current()), steps[..turns])
    {
      turns := 0;
      while turns < |steps|
        invariant Consistent() && resampler != null && (resampler == old(resampler) || fresh(resampler))
        invariant turns <= |steps| && Current() == After(files, old(Current()), steps[..turns])
      {
        assert steps[..turns + 1][..turns] == steps[..turns];
        match steps[turns] {
          case Swap(a) =>
            var ok := ApplyOneSwap(a);
          case Play(c) =>
            var alive := PlayChunk(c);
            if !alive {
              return;
            }
        }
        turns := turns + 1;
      }
    }

    /** Up to the loop: the configured voice, the library, the resampler. */
    method StartUp(loads: bool, probes: bool, library: seq<Warming>) returns (warm: bool)
      requires Stopped()
      modifies this
      ensures Lawful(files) && CacheTrue() && rvcModel == old(rvcModel) && written == old(written)
      ensures warm == (loads && (files.resolve(rvcModel) in old(srCache) || probes) && AllLoad(library))
      ensures warm ==> Consistent() && resampler != null && fresh(resampler)
      ensures warm ==> srCache.Keys == old(srCache.Keys) + {files.resolve(rvcModel)} + WarmedPaths(files, library)
    {
      hide WarmedPaths, AllLoad, Lawful;
      warm := EnsureSessions(loads, probes);
      if warm {
        warm := WarmLibrary(library);
      }
      if warm {
        BeginLoop();
      }
    }

    /** A whole run, from a stopped engine back to one: start-up, the loop, the tail
        of the last chunk, and teardown's release of the session. Returns whether
        the loop was reached and how many turns it made. */
    method Live(loads: bool, probes: bool, library: seq<Warming>, steps: seq<Step>, end: Attempt)
      returns (warm: bool, turns: nat)
      requires Stopped()
      modifies this
      ensures Stopped()
      ensures warm == (loads && (files.resolve(old(rvcModel)) in old(srCache) || probes) && AllLoad(library))
      ensures turns <= |steps|
      ensures warm && turns < |steps| ==> steps[turns].Play? && ChunkRaises(steps[turns].chunk, files.rateOf(rvcModel) == sinkRate)
      ensures if warm then Current() == After(files, Warmed(files, old(Current()), library), steps[..turns]) else rvcModel == old(rvcModel)
    {
      hide WarmedPaths, After, AllLoad;
      warm := StartUp(loads, probes, library);
      turns := 0;
      if warm {
        turns := Loop(steps);
        var flushed := FlushTail(end);
      }
      rvc := None;
    }
  }

  /** The standing when the loop begins. */
  function Warmed(files: Files, st: Standing, library: seq<Warming>): Standing {
    Standing(st.voice, st.known + {files.resolve(st.voice)} + WarmedPaths(files, library))
  }

  /** Through any run no rate is forgotten and the running voice's stays known, so
      that the next run starts it without a probe. */
  lemma {:induction false} VoiceStaysKnown(files: Files, st: Standing, steps: seq<Step>)
    requires files.resolve(st.voice) in st.known
    ensures var end := After(files, st, steps); st.known <= end.known && files.resolve(end.voice) in end.known
  {
    if steps != [] {
      VoiceStaysKnown(files, st, steps[..|steps| - 1]);
    }
  }

  /** The target of the last attempt that succeeded. */
  function LastApplied(attempts: seq<Attempt>, results: seq<bool>, before: string): string
    requires |results| == |attempts|
  {
    if attempts == [] then before
    else if results[|results| - 1] then attempts[|attempts| - 1].target
    else LastApplied(attempts[..|attempts| - 1], results[..|results| - 1], before)
  }

  /** The voice after a batch is that of its last success, or the old one. */
  lemma {:induction false} LastAppliedIs(attempts: seq<Attempt>, results: seq<bool>, before: string, k: int)
    requires |results| == |attempts| && -1 <= k < |attempts| && (k >= 0 ==> results[k])
    requires forall j :: k < j < |results| ==> !results[j]
    ensures LastApplied(attempts, results, before) == if k >= 0 then attempts[k].target else before
  {
    if k < |attempts| - 1 {
      LastAppliedIs(attempts[..|attempts| - 1], results[..|results| - 1], before, k);
    }
  }
}
