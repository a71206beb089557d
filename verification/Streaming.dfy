// The streaming wrapper around the voice model: a sliding input history, the
// model call as a function parameter, a proportional trim, then SOLA.
module Streaming {
  import opened Samples
  import opened Alignment
  import opened Sola

  const INPUT_RATE: nat := 16000

  function HistoryLength(input: SolaConfig): int {
    ContextSamples(input) + CrossfadeSamples(input)
  }

  function Zeros(n: nat): (z: seq<real>)
    ensures |z| == n && forall i :: 0 <= i < n ==> z[i] == 0.0
  {
    seq(n, _ => 0.0)
  }

  /** The last n samples, or the whole block when it is shorter. */
  function Trailing(audio: seq<real>, n: nat): seq<real> {
    if n <= |audio| then audio[|audio| - n..] else audio
  }

  /** Output samples per input sample. */
  function LengthRatio(inLen: nat, outLen: nat): (r: real) {
    outLen as real / (if inLen > 1 then inLen else 1) as real
  }

  /** Input-side context that only repeats what was emitted before. */
  function ContextDropIn(input: SolaConfig, solaEnabled: bool): nat {
    var search := if solaEnabled then SearchSamples(input) else 0;
    var drop := HistoryLength(input) - CrossfadeSamples(input) - search;
    if drop > 0 then drop else 0
  }

  /** The same in model output samples: scaled by the length ratio. */
  function ContextDrop(input: SolaConfig, solaEnabled: bool, inLen: nat, outLen: nat): int {
    Round(Times(ContextDropIn(input, solaEnabled) as real, LengthRatio(inLen, outLen)))
  }

  lemma ContextDropNonNegative(input: SolaConfig, solaEnabled: bool, inLen: nat, outLen: nat)
    ensures ContextDrop(input, solaEnabled, inLen, outLen) >= 0
  {
    var d, r := ContextDropIn(input, solaEnabled) as real, LengthRatio(inLen, outLen);
    assert r >= 0.0;
    TimesNonNegative(d, r);
    RoundIsNear(Times(d, r));
  }

  /** The drop is the context that is not part of the search, in the proportion of
      the output's length to the input's, rounded. */
  lemma DropIs(input: SolaConfig, solaEnabled: bool, inLen: nat, outLen: nat)
    requires inLen > 0 && SearchSamples(input) >= 0 && ContextSamples(input) >= 0
    ensures var search := if solaEnabled then SearchSamples(input) else 0;
      var context := if ContextSamples(input) > search then ContextSamples(input) - search else 0;
      IsRounded(ContextDrop(input, solaEnabled, inLen, outLen), Times(context as real, outLen as real / inLen as real))
  {
    hide CrossfadeSamples, ContextSamples, SearchSamples, Round, Times, IsRounded;
    var d, r := ContextDropIn(input, solaEnabled) as real, LengthRatio(inLen, outLen);
    RoundIsNear(Times(d, r));
  }

  function EmittedRegion(input: SolaConfig, solaEnabled: bool, inLen: nat, out: seq<real>): seq<real> {
    var drop := ContextDrop(input, solaEnabled, inLen, |out|);
    if 0 <= drop <= |out| then out[drop..] else []
  }

  function ModelInput(history: seq<real>, chunk: seq<real>): seq<real> {
    history + chunk
  }

  class StreamingPipeline {
    const input: SolaConfig
    const infer: seq<real> -> seq<real>
    const sola: SolaStream?
    var inputHistory: seq<real>

    ghost predicate Valid()
      reads this, sola
    {
      && Usable(input) && |inputHistory| == HistoryLength(input)
      && (sola != null ==> sola.Valid())
    }

    constructor (input: SolaConfig, infer: seq<real> -> seq<real>, sola: SolaStream?)
      requires Usable(input) && (sola != null ==> sola.Valid())
      ensures Valid() && this.input == input && this.infer == infer && this.sola == sola
      ensures inputHistory == Zeros(HistoryLength(input))
    {
      this.input, this.infer, this.sola := input, infer, sola;
      inputHistory := Zeros(HistoryLength(input));
    }

    method ResetStreamingState()
      requires Valid()
      modifies this, sola
      ensures Valid() && inputHistory == Zeros(HistoryLength(input))
      ensures sola != null ==> sola.State() == FRESH
    {
      inputHistory := Zeros(HistoryLength(input));
      if sola != null {
        sola.Reset();
      }
    }

    method ProcessStreaming(chunk: seq<real>) returns (emit: seq<real>)
      requires Valid()
      modifies this, sola
      ensures Valid()
      ensures var modelInput := ModelInput(old(inputHistory), chunk);
        var region := EmittedRegion(input, sola != null, |modelInput|, infer(modelInput));
        && inputHistory == Trailing(modelInput, HistoryLength(input))
        && (sola == null ==> emit == region)
        && (sola != null ==>
              && sola.State() == NextState(sola.m, sola.cfg, old(sola.State()), region)
              && emit == Emitted(sola.m, sola.cfg, old(sola.State()), region))
    {
      var modelInput := inputHistory + chunk;
      inputHistory := modelInput[|modelInput| - HistoryLength(input)..];
      var fullOut := infer(modelInput);
      var drop := ContextDrop(input, sola != null, |modelInput|, |fullOut|);
      ContextDropNonNegative(input, sola != null, |modelInput|, |fullOut|);
      var region := if drop <= |fullOut| then fullOut[drop..] else [];
      if sola != null {
        emit := sola.Process(region);
      } else {
        emit := region;
      }
    }
  }

  // ---------- whole runs ----------

  function Flatten(chunks: seq<seq<real>>): seq<real> {
    if chunks == [] then [] else Flatten(chunks[..|chunks| - 1]) + chunks[|chunks| - 1]
  }

  /** Everything the model has been shown: the zero history, then the chunks. */
  function Timeline(input: SolaConfig, chunks: seq<seq<real>>): (t: seq<real>)
    requires Usable(input)
    ensures |t| >= HistoryLength(input)
  {
    Zeros(HistoryLength(input)) + Flatten(chunks)
  }

  function HistoryAfter(input: SolaConfig, chunks: seq<seq<real>>): seq<real>
    requires Usable(input)
  {
    if chunks == [] then Zeros(HistoryLength(input))
    else Trailing(ModelInput(HistoryAfter(input, chunks[..|chunks| - 1]), chunks[|chunks| - 1]), HistoryLength(input))
  }

  /** The block SOLA receives for the last chunk of a run. */
  function SolaInput(input: SolaConfig, infer: seq<real> -> seq<real>, chunks: seq<seq<real>>, k: nat): seq<real>
    requires Usable(input) && k < |chunks|
  {
    var modelInput := ModelInput(HistoryAfter(input, chunks[..k]), chunks[k]);
    EmittedRegion(input, true, |modelInput|, infer(modelInput))
  }

  function SolaInputs(input: SolaConfig, infer: seq<real> -> seq<real>, chunks: seq<seq<real>>): (s: seq<seq<real>>)
    requires Usable(input)
    ensures |s| == |chunks|
  {
    seq(|chunks|, k requires 0 <= k < |chunks| => SolaInput(input, infer, chunks, k))
  }

  lemma TrailingOfTrailing(t: seq<real>, chunk: seq<real>, n: nat)
    requires n <= |t|
    ensures Trailing(Trailing(t, n) + chunk, n) == Trailing(t + chunk, n)
  {
  }

  lemma TimelineSnoc(input: SolaConfig, chunks: seq<seq<real>>)
    requires Usable(input) && chunks != []
    ensures Timeline(input, chunks) == Timeline(input, chunks[..|chunks| - 1]) + chunks[|chunks| - 1]
  {
  }

  lemma {:induction false} HistoryIsTimelineEnd(input: SolaConfig, chunks: seq<seq<real>>)
    requires Usable(input)
    ensures HistoryAfter(input, chunks) == Trailing(Timeline(input, chunks), HistoryLength(input))
  {
    hide CrossfadeSamples, ContextSamples, Trailing;
    if chunks != [] {
      HistoryIsTimelineEnd(input, chunks[..|chunks| - 1]);
      TimelineSnoc(input, chunks);
      TrailingOfTrailing(Timeline(input, chunks[..|chunks| - 1]), chunks[|chunks| - 1], HistoryLength(input));
    } else {
      TrailingWhole(Zeros(HistoryLength(input)), HistoryLength(input));
      assert Timeline(input, chunks) == Zeros(HistoryLength(input));
    }
  }

  lemma TrailingWhole(t: seq<real>, n: nat)
    requires |t| <= n
    ensures Trailing(t, n) == t
  {
  }

  // ---------- transparency with an identity model ----------

  function Same(audio: seq<real>): seq<real> {
    audio
  }

  predicate TransparentSetup(input: SolaConfig) {
    Usable(input) && ContextSamples(input) >= SearchSamples(input) && input.threshold <= 1.0
  }

  lemma RatioOfMultiple(inLen: nat, outLen: nat, r: real)
    requires inLen > 0 && outLen as real == Times(r, inLen as real)
    ensures LengthRatio(inLen, outLen) == r
  {
  }

  lemma IdentityDrop(input: SolaConfig, n: nat)
    requires TransparentSetup(input) && n > 0
    ensures ContextDrop(input, true, n, n) == ContextSamples(input) - SearchSamples(input)
  {
    hide CrossfadeSamples, ContextSamples, SearchSamples, LengthRatio;
    RatioOfMultiple(n, n, 1.0);
    RoundKeepsIntegers(ContextSamples(input) - SearchSamples(input));
  }

  /** With the identity model, SOLA receives the end of the timeline: the new
      chunk and the crossfade and search samples before it. */
  lemma IdentitySolaInput(input: SolaConfig, chunks: seq<seq<real>>, k: nat)
    requires TransparentSetup(input) && k < |chunks|
    ensures SolaInput(input, Same, chunks, k)
         == Trailing(Timeline(input, chunks[..k + 1]), |chunks[k]| + CrossfadeSamples(input) + SearchSamples(input))
  {
    hide CrossfadeSamples, ContextSamples, SearchSamples, ContextDrop, Timeline, HistoryAfter;
    HistoryIsTimelineEnd(input, chunks[..k]);
    assert chunks[..k + 1][..k] == chunks[..k];
    TimelineSnoc(input, chunks[..k + 1]);
    var t, h := Timeline(input, chunks[..k]), HistoryLength(input);
    var modelInput := ModelInput(HistoryAfter(input, chunks[..k]), chunks[k]);
    assert |modelInput| == h + |chunks[k]|;
    IdentityDrop(input, |modelInput|);
  }

  /** Without SOLA the whole output after the context is emitted: with the
      identity model, the chunk and the crossfade before it. */
  lemma IdentityWithoutSola(input: SolaConfig, chunks: seq<seq<real>>, k: nat)
    requires Usable(input) && k < |chunks|
    ensures var modelInput := ModelInput(HistoryAfter(input, chunks[..k]), chunks[k]);
      EmittedRegion(input, false, |modelInput|, Same(modelInput))
        == Trailing(Timeline(input, chunks[..k + 1]), |chunks[k]| + CrossfadeSamples(input))
  {
    hide CrossfadeSamples, ContextSamples, SearchSamples, Timeline, HistoryAfter, LengthRatio;
    HistoryIsTimelineEnd(input, chunks[..k]);
    assert chunks[..k + 1][..k] == chunks[..k];
    TimelineSnoc(input, chunks[..k + 1]);
    var n := HistoryLength(input) + |chunks[k]|;
    assert |ModelInput(HistoryAfter(input, chunks[..k]), chunks[k])| == n;
    RatioOfMultiple(n, n, 1.0);
    RoundKeepsIntegers(ContextSamples(input));
  }

  lemma FadingIntoItself(m: Maths, tail: seq<real>, window: seq<real>)
    requires Lawful(m) && (|window| >= |tail| ==> window[..|tail|] == tail)
    ensures Blend(m, tail, window, false) == window
  {
    hide HannOut, HannIn, Lawful, Times;
    if |window| >= |tail| {
      var out, inn := HannOut(m, |tail|), HannIn(m, |tail|);
      forall i | 0 <= i < |tail| ensures Mix(tail, tail, out, inn)[i] == tail[i] {
        FadeLaws(m, |tail|, i);
        SplitSample(tail[i], out[i], inn[i]);
      }
      assert Mix(tail, tail, out, inn) == tail;
      assert window == tail + window[|tail|..];
    }
  }

  lemma SplitSample(x: real, a: real, b: real)
    requires a + b == 1.0
    ensures Times(x, a) + Times(x, b) == x
  {
    assert x * a + x * b == x * (a + b);
  }

  /** The tail SOLA holds before chunk k, and the block it searches. */
  function HeldTail(input: SolaConfig, chunks: seq<seq<real>>, k: nat): seq<real>
    requires Usable(input) && k <= |chunks|
  {
    Trailing(Timeline(input, chunks[..k]), CrossfadeSamples(input))
  }

  function SearchHead(input: SolaConfig, chunks: seq<seq<real>>, k: nat): seq<real>
    requires Usable(input) && k <= |chunks|
  {
    Trailing(Timeline(input, chunks[..k]), CrossfadeSamples(input) + SearchSamples(input))
  }

  /** The timeline between the end of chunk k - 1 and the end of chunk k, moved
      back by the crossfade. */
  function DelayedSlice(input: SolaConfig, chunks: seq<seq<real>>, k: nat): seq<real>
    requires Usable(input) && k < |chunks|
  {
    var cf := CrossfadeSamples(input);
    var t, from := Timeline(input, chunks[..k + 1]), |Timeline(input, chunks[..k])|;
    if cf <= from <= |t| then t[from - cf..|t| - cf] else []
  }

  /** The block of a call: search slack, the held tail, then the new samples. */
  lemma BlockLayout(t: seq<real>, chunk: seq<real>, cf: nat, search: nat)
    requires cf + search <= |t|
    ensures var block := Trailing(t + chunk, |chunk| + cf + search);
      && |block| == |chunk| + cf + search
      && block[..cf + search] == Trailing(t, cf + search)
      && Window(block[..cf + search], search, cf) == Trailing(t, cf)
      && block[search..search + |chunk|] == (t + chunk)[|t| - cf..|t + chunk| - cf]
      && Last(block, cf) == Trailing(t + chunk, cf)
  {
    var all, from := t + chunk, |t| - cf - search;
    var block := all[from..];
    assert block == Trailing(all, |chunk| + cf + search);
    assert block[..cf + search] == t[from..];
    assert block[search..search + |chunk|] == all[from + search..from + search + |chunk|];
  }

  lemma HeldTailIsTimelineEnd(m: Maths, input: SolaConfig, chunks: seq<seq<real>>, k: nat)
    requires TransparentSetup(input) && 0 < k <= |chunks|
    ensures StateAfter(m, input, SolaInputs(input, Same, chunks)[..k]).tail == Some(HeldTail(input, chunks, k))
  {
    hide CrossfadeSamples, ContextSamples, SearchSamples, Timeline, SolaInput;
    var inputs := SolaInputs(input, Same, chunks);
    EmitLengthIsConstant(m, input, inputs, k - 1);
    IdentitySolaInput(input, chunks, k - 1);
    assert chunks[..k][..k - 1] == chunks[..k - 1];
    TimelineSnoc(input, chunks[..k]);
    BlockLayout(Timeline(input, chunks[..k - 1]), chunks[k - 1], CrossfadeSamples(input), SearchSamples(input));
  }

  /** No search position before the last matches the tail perfectly. */
  ghost predicate NoEarlierMatch(m: Maths, tail: seq<real>, head: seq<real>, search: nat) {
    forall j :: 0 <= j < search ==> !MatchAt(m, tail, head, j)
  }

  ghost predicate MatchAt(m: Maths, tail: seq<real>, head: seq<real>, j: nat) {
    j + |tail| <= |head| && PerfectMatch(m.sqrt, tail, head, j)
  }

  ghost predicate PlainSeam(m: Maths, input: SolaConfig, chunks: seq<seq<real>>, k: nat)
    requires TransparentSetup(input) && k < |chunks|
  {
    NoEarlierMatch(m, HeldTail(input, chunks, k), SearchHead(input, chunks, k), SearchSamples(input))
  }

  lemma RootIsLawful(m: Maths)
    requires Lawful(m)
    ensures IsSqrt(m.sqrt)
  {
  }

  lemma MatchIs(m: Maths, tail: seq<real>, head: seq<real>, j: nat)
    requires j + |tail| <= |head|
    ensures MatchAt(m, tail, head, j) <==> PerfectMatch(m.sqrt, tail, head, j)
  {
  }

  lemma AlignedChoice(m: Maths, cfg: SolaConfig, block: seq<real>, tail: seq<real>, head: seq<real>)
    requires Lawful(m) && Usable(cfg) && cfg.threshold <= 1.0
    requires |tail| == CrossfadeSamples(cfg) && Norm(m.sqrt, tail) > EPSILON
    requires |block| >= CrossfadeSamples(cfg) + SearchSamples(cfg)
    requires head == block[..CrossfadeSamples(cfg) + SearchSamples(cfg)]
    requires Window(head, SearchSamples(cfg), |tail|) == tail
    ensures var c := Align(m, cfg, tail, block);
      && !c.fellBack
      && (c.offset == SearchSamples(cfg) <==> NoEarlierMatch(m, tail, head, SearchSamples(cfg)))
      && (c.clipped <==> c.offset == SearchSamples(cfg))
  {
    hide CrossfadeSamples, SearchSamples, Lawful, PerfectMatch, Norm, BestOffset, MatchAt, Window;
    var search := SearchSamples(cfg);
    RootIsLawful(m);
    SearchFindsTail(m.sqrt, tail, head, search, cfg.threshold);
    var c := Align(m, cfg, tail, block);
    forall j | 0 <= j < search ensures MatchAt(m, tail, head, j) <==> PerfectMatch(m.sqrt, tail, head, j) {
      MatchIs(m, tail, head, j);
    }
  }

  /** A call whose search block ends with the held tail. */
  lemma AlignedCall(m: Maths, cfg: SolaConfig, st: StreamState, block: seq<real>, tail: seq<real>, head: seq<real>, n: nat)
    requires Lawful(m) && Usable(cfg) && cfg.threshold <= 1.0 && n > 0
    requires st.tail == Some(tail) && |tail| == CrossfadeSamples(cfg) && Norm(m.sqrt, tail) > EPSILON
    requires |block| == n + CrossfadeSamples(cfg) + SearchSamples(cfg)
    requires head == block[..CrossfadeSamples(cfg) + SearchSamples(cfg)]
    requires Window(head, SearchSamples(cfg), |tail|) == tail
    ensures var search := SearchSamples(cfg);
      && NextState(m, cfg, st, block).fallbacks == st.fallbacks
      && (NextState(m, cfg, st, block).clipped == st.clipped + 1 <==> NoEarlierMatch(m, tail, head, search))
      && (NoEarlierMatch(m, tail, head, search) ==> Emitted(m, cfg, st, block) == block[search..search + n])
  {
    hide CrossfadeSamples, SearchSamples, Lawful, Norm, Blend, Align, NoEarlierMatch, Window, NextState, Emitted;
    AlignedChoice(m, cfg, block, tail, head);
    var search := SearchSamples(cfg);
    WindowLead(block, tail, CrossfadeSamples(cfg), search, n);
    FadingIntoItself(m, tail, block[search..search + n]);
    CallOutcome(m, cfg, st, block, tail, n);
  }

  /** State and output of a call that has a tail and something to emit. */
  lemma CallOutcome(m: Maths, cfg: SolaConfig, st: StreamState, block: seq<real>, tail: seq<real>, n: nat)
    requires Usable(cfg) && n > 0 && st.tail == Some(tail) && |tail| == CrossfadeSamples(cfg)
    requires |block| == n + CrossfadeSamples(cfg) + SearchSamples(cfg)
    requires !Align(m, cfg, tail, block).fellBack
    ensures var c := Align(m, cfg, tail, block);
      && NextState(m, cfg, st, block).fallbacks == st.fallbacks
      && NextState(m, cfg, st, block).clipped == (if c.clipped then st.clipped + 1 else st.clipped)
      && c.offset + n <= |block|
      && Emitted(m, cfg, st, block) == Blend(m, tail, block[c.offset..c.offset + n], false)
  {
    hide CrossfadeSamples, SearchSamples, Align, Blend;
    assert ChunkLength(cfg, block) == n;
  }

  lemma WindowLead(block: seq<real>, tail: seq<real>, cf: nat, search: nat, n: nat)
    requires |block| == n + cf + search && |tail| == cf
    requires Window(block[..cf + search], search, cf) == tail
    ensures n >= cf ==> block[search..search + n][..cf] == tail
  {
    if n >= cf {
      assert block[search..search + n][..cf] == block[..cf + search][search..search + cf];
    }
  }

  /** With the identity model, a seam whose held tail is audible never falls
      back and aligns on the first perfect match. It aligns at the far edge,
      counted as clipped, exactly when no earlier position matches, and then
      the call emits its slice of the input, delayed by the crossfade. */
  lemma SeamIsTransparent(m: Maths, input: SolaConfig, chunks: seq<seq<real>>, k: nat)
    requires Lawful(m) && TransparentSetup(input) && 0 < k < |chunks| && chunks[k] != []
    requires Norm(m.sqrt, HeldTail(input, chunks, k)) > EPSILON
    ensures var inputs := SolaInputs(input, Same, chunks);
      var before, after := StateAfter(m, input, inputs[..k]), StateAfter(m, input, inputs[..k + 1]);
      && after.fallbacks == before.fallbacks
      && (after.clipped == before.clipped + 1 <==> PlainSeam(m, input, chunks, k))
      && (PlainSeam(m, input, chunks, k) ==> EmitAt(m, input, inputs, k) == DelayedSlice(input, chunks, k))
  {
    hide CrossfadeSamples, ContextSamples, SearchSamples, Timeline, SolaInput, Lawful, PerfectMatch, Norm, Emitted, NextState;
    var inputs := SolaInputs(input, Same, chunks);
    var tail := HeldTail(input, chunks, k);
    HeldTailIsTimelineEnd(m, input, chunks, k);
    IdentitySolaInput(input, chunks, k);
    assert chunks[..k + 1][..k] == chunks[..k];
    TimelineSnoc(input, chunks[..k + 1]);
    BlockLayout(Timeline(input, chunks[..k]), chunks[k], CrossfadeSamples(input), SearchSamples(input));
    assert inputs[..k + 1][..k] == inputs[..k];
    hide NoEarlierMatch, ChunkLength;
    AlignedCall(m, input, StateAfter(m, input, inputs[..k]), inputs[k], tail, SearchHead(input, chunks, k), |chunks[k]|);
  }

  /** The first emit is the timeline up to the first chunk's end, moved back by
      the crossfade and the search: the samples of one search length between it
      and the next emit, which is only moved back by the crossfade, are never
      emitted. */
  lemma FirstEmitIs(m: Maths, input: SolaConfig, chunks: seq<seq<real>>)
    requires TransparentSetup(input) && chunks != []
    ensures var cf, search, h, n := CrossfadeSamples(input), SearchSamples(input), HistoryLength(input), |chunks[0]|;
      && |Timeline(input, chunks[..1])| == h + n && cf + search <= h
      && EmitAt(m, input, SolaInputs(input, Same, chunks), 0) == Timeline(input, chunks[..1])[h - cf - search..h - cf - search + n]
  {
    hide CrossfadeSamples, ContextSamples, SearchSamples, SolaInput;
    var inputs := SolaInputs(input, Same, chunks);
    assert inputs[..0] == [] && chunks[..0] == [];
    IdentitySolaInput(input, chunks, 0);
    TimelineSnoc(input, chunks[..1]);
    assert chunks[..1][..0] == [];
    BlockStarts(Timeline(input, chunks[..0]), chunks[0], CrossfadeSamples(input) + SearchSamples(input));
  }

  lemma BlockStarts(t: seq<real>, chunk: seq<real>, slack: nat)
    requires slack <= |t|
    ensures var block := Trailing(t + chunk, |chunk| + slack);
      |block| == |chunk| + slack && block[..|chunk|] == (t + chunk)[|t| - slack..|t| - slack + |chunk|]
  {
  }

  /** Emits of calls 1 to n - 1, joined. */
  function EmitsAfterFirst(m: Maths, input: SolaConfig, chunks: seq<seq<real>>, n: nat): seq<real>
    requires Usable(input) && n <= |chunks|
  {
    if n <= 1 then []
    else EmitsAfterFirst(m, input, chunks, n - 1) + EmitAt(m, input, SolaInputs(input, Same, chunks), n - 1)
  }

  ghost predicate CleanSeam(m: Maths, input: SolaConfig, chunks: seq<seq<real>>, k: nat)
    requires TransparentSetup(input) && k < |chunks|
  {
    chunks[k] == [] || (Norm(m.sqrt, HeldTail(input, chunks, k)) > EPSILON && PlainSeam(m, input, chunks, k))
  }

  /** A run of clean seams is transparent: joined, its emits are one unbroken
      stretch of the input, delayed by exactly the crossfade. */
  lemma {:induction false} RunIsTransparent(m: Maths, input: SolaConfig, chunks: seq<seq<real>>, n: nat)
    requires Lawful(m) && TransparentSetup(input) && 1 <= n <= |chunks|
    requires forall k :: 0 < k < n ==> CleanSeam(m, input, chunks, k)
    ensures var cf, from, t := CrossfadeSamples(input), |Timeline(input, chunks[..1])|, Timeline(input, chunks[..n]);
      && cf <= from <= |t|
      && EmitsAfterFirst(m, input, chunks, n) == t[from - cf..|t| - cf]
  {
    hide CrossfadeSamples, ContextSamples, SearchSamples, Timeline, Lawful, Norm, PlainSeam, EmitAt, SolaInputs;
    if n > 1 {
      RunIsTransparent(m, input, chunks, n - 1);
      assert CleanSeam(m, input, chunks, n - 1);
      assert chunks[..n][..n - 1] == chunks[..n - 1];
      TimelineSnoc(input, chunks[..n]);
      SeamEmits(m, input, chunks, n - 1);
    }
  }

  lemma SeamEmits(m: Maths, input: SolaConfig, chunks: seq<seq<real>>, k: nat)
    requires Lawful(m) && TransparentSetup(input) && 0 < k < |chunks| && CleanSeam(m, input, chunks, k)
    ensures EmitAt(m, input, SolaInputs(input, Same, chunks), k) == DelayedSlice(input, chunks, k)
  {
    hide CrossfadeSamples, ContextSamples, SearchSamples, Timeline, SolaInputs, EmitAt, DelayedSlice, Lawful, Norm, PlainSeam;
    if chunks[k] == [] {
      EmptySeamEmits(m, input, chunks, k);
    } else {
      SeamIsTransparent(m, input, chunks, k);
    }
  }

  lemma EmptySeamEmits(m: Maths, input: SolaConfig, chunks: seq<seq<real>>, k: nat)
    requires TransparentSetup(input) && 0 < k < |chunks| && chunks[k] == []
    ensures EmitAt(m, input, SolaInputs(input, Same, chunks), k) == [] == DelayedSlice(input, chunks, k)
  {
    hide CrossfadeSamples, ContextSamples, SearchSamples, Timeline, SolaInput, EmitAt;
    assert chunks[..k + 1][..k] == chunks[..k];
    TimelineSnoc(input, chunks[..k + 1]);
    IdentitySolaInput(input, chunks, k);
    EmitLengthIsConstant(m, input, SolaInputs(input, Same, chunks), k);
  }

  // ---------- emit length across sample rates ----------

  /** The output-side configuration: the same times at the model's rate. */
  predicate SameTimes(input: SolaConfig, output: SolaConfig) {
    && input.rate == INPUT_RATE
    && output.crossfadeMs == input.crossfadeMs
    && output.searchMs == input.searchMs
  }

  function RateRatio(output: SolaConfig): real {
    output.rate as real / 16000.0
  }

  lemma TimesSum(r: real, x: real, y: real)
    ensures Times(r, x + y) == Times(r, x) + Times(r, y)
  {
  }

  lemma ScaledBound(r: real, d: real)
    requires r >= 0.0 && -0.5 <= d <= 0.5
    ensures -0.5 * r <= Times(r, d) <= 0.5 * r
  {
    assert r * (0.5 - d) >= 0.0 && r * (0.5 + d) >= 0.0;
  }

  /** A length rounded at the input rate and again at the output rate. */
  lemma RoundedTwice(r: real, x: real, roundedIn: real, roundedOut: real)
    requires r >= 0.0 && -0.5 <= roundedIn - x <= 0.5 && -0.5 <= roundedOut - Times(r, x) <= 0.5
    ensures -(0.5 + 0.5 * r) <= roundedOut - Times(r, roundedIn) <= 0.5 + 0.5 * r
  {
    ScaledBound(r, roundedIn - x);
    TimesSum(r, x, roundedIn - x);
    hide Times;
  }

  lemma SamplesAtTwoRates(rate: nat, ms: real)
    ensures var r := rate as real / 16000.0;
      var off := MsToSamples(rate, ms) as real - Times(r, MsToSamples(INPUT_RATE, ms) as real);
      -(0.5 + 0.5 * r) <= off <= 0.5 + 0.5 * r
  {
    var r, x := rate as real / 16000.0, 16000 as real * ms / 1000.0;
    var y := rate as real * ms / 1000.0;
    RoundIsNear(x);
    RoundIsNear(y);
    assert y == Times(r, x);
    hide Times, Round;
    RoundedTwice(r, x, Round(x) as real, Round(y) as real);
  }

  lemma EmitArithmetic(r: real, ctx: real, cf: real, search: real, n: real,
                       out: real, drop: real, cfOut: real, searchOut: real)
    requires out == Times(r, ctx + cf + n)
    requires -0.5 <= drop - Times(r, ctx - search) <= 0.5
    requires -(0.5 + 0.5 * r) <= cfOut - Times(r, cf) <= 0.5 + 0.5 * r
    requires -(0.5 + 0.5 * r) <= searchOut - Times(r, search) <= 0.5 + 0.5 * r
    ensures -(r + 1.5) <= out - drop - cfOut - searchOut - Times(r, n) <= r + 1.5
  {
    TimesSum(r, ctx + cf, n);
    TimesSum(r, ctx, cf);
    TimesSum(r, ctx - search, search);
    hide Times;
  }

  lemma DropIsNear(input: SolaConfig, inLen: nat, outLen: nat, r: real)
    requires Usable(input) && ContextSamples(input) >= SearchSamples(input)
    requires inLen > 0 && outLen as real == Times(r, inLen as real)
    ensures var d := (ContextSamples(input) - SearchSamples(input)) as real;
      && -0.5 <= ContextDrop(input, true, inLen, outLen) as real - Times(r, d) <= 0.5
      && (r == 1.0 ==> ContextDrop(input, true, inLen, outLen) == ContextSamples(input) - SearchSamples(input))
  {
    hide ContextSamples, SearchSamples, CrossfadeSamples, LengthRatio, Round;
    var d := ContextSamples(input) - SearchSamples(input);
    RatioOfMultiple(inLen, outLen, r);
    assert Times(r, d as real) == Times(d as real, r);
    RoundIsNear(Times(r, d as real));
    RoundKeepsIntegers(d);
  }

  /** A model that returns exactly `rate / 16000` output samples per input
      sample makes each emit follow the chunk's duration, although the context
      drop, crossfade and search are rounded separately at two rates. */
  lemma EmitFollowsChunk(input: SolaConfig, output: SolaConfig, n: nat, out: seq<real>)
    requires Usable(input) && Usable(output) && SameTimes(input, output)
    requires ContextSamples(input) >= SearchSamples(input)
    requires |out| as real == Times(RateRatio(output), (HistoryLength(input) + n) as real)
    requires ChunkLength(output, EmittedRegion(input, true, HistoryLength(input) + n, out)) > 0
    ensures var r := RateRatio(output);
      var emit := ChunkLength(output, EmittedRegion(input, true, HistoryLength(input) + n, out));
      && -(r + 1.5) <= emit as real - Times(r, n as real) <= r + 1.5
      && (output.rate == INPUT_RATE ==> emit == n)
  {
    SamplesAtTwoRates(output.rate, input.crossfadeMs);
    SamplesAtTwoRates(output.rate, input.searchMs);
    assert CrossfadeSamples(output) == MsToSamples(output.rate, input.crossfadeMs);
    assert SearchSamples(output) == MsToSamples(output.rate, input.searchMs);
    hide MsToSamples, ContextSamples, ContextDrop, Times;
    var r, inLen := RateRatio(output), HistoryLength(input) + n;
    var cf, search, ctx := CrossfadeSamples(input), SearchSamples(input), ContextSamples(input);
    DropIsNear(input, inLen, |out|, r);
    ContextDropNonNegative(input, true, inLen, |out|);
    var drop := ContextDrop(input, true, inLen, |out|);
    EmitArithmetic(r, ctx as real, cf as real, search as real, n as real,
                   |out| as real, drop as real, CrossfadeSamples(output) as real, SearchSamples(output) as real);
  }
}
