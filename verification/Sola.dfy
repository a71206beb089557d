// The SOLA crossfader: fade pairs, the streaming state machine, and the class
// that runs it in place.
module Sola {
  import opened Samples
  import opened Alignment

  /** The real functions the source takes from its numeric library. */
  datatype Maths = Maths(pi: real, cos: real -> real, sin: real -> real, sqrt: real -> real)

  ghost predicate Lawful(m: Maths) {
    && m.pi > 0.0
    && IsSqrt(m.sqrt)
    && (forall x: real :: Times(m.cos(x), m.cos(x)) + Times(m.sin(x), m.sin(x)) == 1.0)
    && (forall x: real :: 0.0 <= x <= m.pi / 2.0 ==> m.cos(x) >= 0.0 && m.sin(x) >= 0.0)
    && m.cos(0.0) == 1.0
    && (forall x: real, y: real :: 0.0 <= x < y <= m.pi / 2.0 ==> m.cos(y) < m.cos(x))
  }

  datatype SolaConfig = SolaConfig(rate: nat, crossfadeMs: real, searchMs: real, contextMs: real, threshold: real)

  /** `round(rate * ms / 1000)` */
  function MsToSamples(rate: nat, ms: real): int {
    Round(rate as real * ms / 1000.0)
  }

  function CrossfadeSamples(cfg: SolaConfig): int {
    MsToSamples(cfg.rate, cfg.crossfadeMs)
  }

  function SearchSamples(cfg: SolaConfig): int {
    MsToSamples(cfg.rate, cfg.searchMs)
  }

  function ContextSamples(cfg: SolaConfig): int {
    MsToSamples(cfg.rate, cfg.contextMs)
  }

  /** At crossfade 0 the slice of the last 0 samples would be the whole block. */
  predicate Usable(cfg: SolaConfig) {
    CrossfadeSamples(cfg) >= 1 && SearchSamples(cfg) >= 0 && ContextSamples(cfg) >= 0
  }

  /** The three lengths are their milliseconds at the rate, rounded. */
  lemma LengthsAre(cfg: SolaConfig)
    ensures IsRounded(CrossfadeSamples(cfg), cfg.rate as real * cfg.crossfadeMs / 1000.0)
    ensures IsRounded(SearchSamples(cfg), cfg.rate as real * cfg.searchMs / 1000.0)
    ensures IsRounded(ContextSamples(cfg), cfg.rate as real * cfg.contextMs / 1000.0)
  {
    RoundIsNear(cfg.rate as real * cfg.crossfadeMs / 1000.0);
    RoundIsNear(cfg.rate as real * cfg.searchMs / 1000.0);
    RoundIsNear(cfg.rate as real * cfg.contextMs / 1000.0);
    hide Round, IsRounded;
  }

  // ---------- fades ----------

  /** Half of the i-th of n points spread over [0, pi). */
  function HalfAngle(pi: real, n: nat, i: nat): real
    requires i < n
  {
    pi * i as real / n as real / 2.0
  }

  function EqualPowerOut(m: Maths, n: nat): (f: seq<real>)
    ensures |f| == n
  {
    seq(n, i requires 0 <= i < n => m.cos(HalfAngle(m.pi, n, i)))
  }

  function EqualPowerIn(m: Maths, n: nat): (f: seq<real>)
    ensures |f| == n
  {
    seq(n, i requires 0 <= i < n => m.sin(HalfAngle(m.pi, n, i)))
  }

  function Squared(f: seq<real>): (s: seq<real>)
    ensures |s| == |f|
  {
    seq(|f|, i requires 0 <= i < |f| => Times(f[i], f[i]))
  }

  function HannOut(m: Maths, n: nat): (f: seq<real>)
    ensures |f| == n
  {
    Squared(EqualPowerOut(m, n))
  }

  function HannIn(m: Maths, n: nat): (f: seq<real>)
    ensures |f| == n
  {
    Squared(EqualPowerIn(m, n))
  }

  lemma HalfAngleInQuarter(pi: real, n: nat, i: nat)
    requires pi > 0.0 && i < n
    ensures 0.0 <= HalfAngle(pi, n, i) <= pi / 2.0
  {
    var q := i as real / n as real;
    assert 0.0 <= q <= 1.0;
    assert HalfAngle(pi, n, i) == pi * q / 2.0;
  }

  /** Equal power: non-negative and the squares sum to 1. Hann: the fades
      themselves sum to 1. */
  lemma FadeLaws(m: Maths, n: nat, i: nat)
    requires Lawful(m) && i < n
    ensures EqualPowerOut(m, n)[i] >= 0.0 && EqualPowerIn(m, n)[i] >= 0.0
    ensures HannOut(m, n)[i] >= 0.0 && HannIn(m, n)[i] >= 0.0
    ensures HannOut(m, n)[i] + HannIn(m, n)[i] == 1.0
    ensures Times(EqualPowerOut(m, n)[i], EqualPowerOut(m, n)[i]) + Times(EqualPowerIn(m, n)[i], EqualPowerIn(m, n)[i]) == 1.0
  {
    hide Times;
    var x := HalfAngle(m.pi, n, i);
    HalfAngleInQuarter(m.pi, n, i);
    SquareSign(m.cos(x));
    SquareSign(m.sin(x));
  }

  lemma HalfAngleGrows(pi: real, n: nat, i: nat)
    requires pi > 0.0 && i + 1 < n
    ensures HalfAngle(pi, n, i) < HalfAngle(pi, n, i + 1)
  {
    var step := pi / n as real / 2.0;
    assert step > 0.0;
    assert HalfAngle(pi, n, i) == i as real * step && HalfAngle(pi, n, i + 1) == (i + 1) as real * step;
  }

  lemma SineRises(m: Maths, x: real, y: real)
    requires Lawful(m) && 0.0 <= x < y <= m.pi / 2.0
    ensures m.cos(y) < m.cos(x) && m.sin(x) < m.sin(y)
    ensures Times(m.cos(y), m.cos(y)) < Times(m.cos(x), m.cos(x)) && Times(m.sin(x), m.sin(x)) < Times(m.sin(y), m.sin(y))
  {
    hide Times;
    assert Times(m.cos(x), m.cos(x)) + Times(m.sin(x), m.sin(x)) == 1.0;
    assert Times(m.cos(y), m.cos(y)) + Times(m.sin(y), m.sin(y)) == 1.0;
    TimesMonotone(m.cos(y), m.cos(x));
    if m.sin(y) <= m.sin(x) {
      TimesMonotone(m.sin(y), m.sin(x));
    }
  }

  /** The old side of both fades falls strictly from 1, the new side rises
      strictly from 0. */
  lemma FadeDirection(m: Maths, n: nat, i: nat)
    requires Lawful(m) && i < n
    ensures EqualPowerOut(m, n)[0] == HannOut(m, n)[0] == 1.0 && EqualPowerIn(m, n)[0] == HannIn(m, n)[0] == 0.0
    ensures i + 1 < n ==> EqualPowerOut(m, n)[i + 1] < EqualPowerOut(m, n)[i] && EqualPowerIn(m, n)[i] < EqualPowerIn(m, n)[i + 1]
    ensures i + 1 < n ==> HannOut(m, n)[i + 1] < HannOut(m, n)[i] && HannIn(m, n)[i] < HannIn(m, n)[i + 1]
  {
    FadeStart(m, n);
    if i + 1 < n {
      HalfAngleInQuarter(m.pi, n, i);
      HalfAngleInQuarter(m.pi, n, i + 1);
      HalfAngleGrows(m.pi, n, i);
      SineRises(m, HalfAngle(m.pi, n, i), HalfAngle(m.pi, n, i + 1));
    }
    hide Times, HalfAngle, Lawful;
  }

  lemma FadeStart(m: Maths, n: nat)
    requires Lawful(m) && n > 0
    ensures EqualPowerOut(m, n)[0] == HannOut(m, n)[0] == 1.0 && EqualPowerIn(m, n)[0] == HannIn(m, n)[0] == 0.0
  {
    assert HalfAngle(m.pi, n, 0) == 0.0 by {
      assert m.pi * 0.0 == 0.0;
    }
    SquareSign(m.sin(0.0));
    assert Times(m.cos(0.0), m.cos(0.0)) + Times(m.sin(0.0), m.sin(0.0)) == 1.0;
    assert Times(1.0, 1.0) == 1.0;
  }

  // ---------- one call ----------

  datatype StreamState = StreamState(tail: Option<seq<real>>, fallbacks: nat, clipped: nat)

  const FRESH := StreamState(None, 0, 0)

  predicate TailFits(st: StreamState, crossfade: int) {
    st.tail.Some? ==> |st.tail.value| == crossfade
  }

  function Last(audio: seq<real>, n: nat): seq<real>
    requires n <= |audio|
  {
    audio[|audio| - n..]
  }

  function Mix(tail: seq<real>, lead: seq<real>, fadeOut: seq<real>, fadeIn: seq<real>): (r: seq<real>)
    requires |tail| == |lead| == |fadeOut| == |fadeIn|
    ensures |r| == |tail|
  {
    seq(|tail|, i requires 0 <= i < |tail| => Times(tail[i], fadeOut[i]) + Times(lead[i], fadeIn[i]))
  }

  /** The emitted window with the held tail faded into its start. */
  function Blend(m: Maths, tail: seq<real>, window: seq<real>, fellBack: bool): (r: seq<real>)
    ensures |r| == |window|
  {
    var n := |tail|;
    if |window| < n then window
    else if fellBack then Mix(tail, window[..n], EqualPowerOut(m, n), EqualPowerIn(m, n)) + window[n..]
    else Mix(tail, window[..n], HannOut(m, n), HannIn(m, n)) + window[n..]
  }

  function Align(m: Maths, cfg: SolaConfig, tail: seq<real>, audio: seq<real>): (c: Choice)
    requires Usable(cfg) && |tail| == CrossfadeSamples(cfg)
    requires |audio| >= CrossfadeSamples(cfg) + SearchSamples(cfg)
    ensures c.offset <= SearchSamples(cfg)
  {
    BestOffset(m.sqrt, tail, audio[..CrossfadeSamples(cfg) + SearchSamples(cfg)], SearchSamples(cfg), cfg.threshold)
  }

  function ChunkLength(cfg: SolaConfig, audio: seq<real>): int {
    |audio| - CrossfadeSamples(cfg) - SearchSamples(cfg)
  }

  function NextState(m: Maths, cfg: SolaConfig, st: StreamState, audio: seq<real>): (r: StreamState)
    requires Usable(cfg) && TailFits(st, CrossfadeSamples(cfg))
    ensures TailFits(r, CrossfadeSamples(cfg))
  {
    var cf := CrossfadeSamples(cfg);
    var held := if |audio| >= cf then Some(Last(audio, cf)) else None;
    if ChunkLength(cfg, audio) <= 0 || st.tail.None? then st.(tail := held)
    else
      var c := Align(m, cfg, st.tail.value, audio);
      StreamState(held,
                  if c.fellBack then st.fallbacks + 1 else st.fallbacks,
                  if !c.fellBack && c.clipped then st.clipped + 1 else st.clipped)
  }

  function Emitted(m: Maths, cfg: SolaConfig, st: StreamState, audio: seq<real>): seq<real>
    requires Usable(cfg) && TailFits(st, CrossfadeSamples(cfg))
  {
    var n := ChunkLength(cfg, audio);
    if n <= 0 then []
    else if st.tail.None? then audio[..n]
    else
      var c := Align(m, cfg, st.tail.value, audio);
      Blend(m, st.tail.value, audio[c.offset..c.offset + n], c.fellBack)
  }

  // ---------- whole runs ----------

  /** The state after any inputs of any lengths. */
  function StateAfter(m: Maths, cfg: SolaConfig, inputs: seq<seq<real>>): (r: StreamState)
    requires Usable(cfg)
    ensures TailFits(r, CrossfadeSamples(cfg))
  {
    if inputs == [] then FRESH
    else NextState(m, cfg, StateAfter(m, cfg, inputs[..|inputs| - 1]), inputs[|inputs| - 1])
  }

  /** What the i-th call of a run emits. */
  function EmitAt(m: Maths, cfg: SolaConfig, inputs: seq<seq<real>>, i: nat): seq<real>
    requires Usable(cfg) && i < |inputs|
  {
    Emitted(m, cfg, StateAfter(m, cfg, inputs[..i]), inputs[i])
  }

  /** Every call of every run emits the constant length, whatever offset wins,
      and keeps the last crossfade of its own input as the tail. */
  lemma EmitLengthIsConstant(m: Maths, cfg: SolaConfig, inputs: seq<seq<real>>, i: nat)
    requires Usable(cfg) && i < |inputs|
    ensures var n := ChunkLength(cfg, inputs[i]);
      |EmitAt(m, cfg, inputs, i)| == if n <= 0 then 0 else n
    ensures StateAfter(m, cfg, inputs[..i + 1]).tail
         == if |inputs[i]| >= CrossfadeSamples(cfg) then Some(Last(inputs[i], CrossfadeSamples(cfg))) else None
  {
    assert inputs[..i + 1][..i] == inputs[..i];
  }

  /** A seam starts on the held tail's first sample and, once the crossfade is
      over, continues with the call's own samples from an offset within the search. */
  lemma SeamIsContinuous(m: Maths, cfg: SolaConfig, inputs: seq<seq<real>>, i: nat) returns (offset: nat)
    requires Lawful(m) && Usable(cfg) && i < |inputs| && StateAfter(m, cfg, inputs[..i]).tail.Some?
    requires ChunkLength(cfg, inputs[i]) >= CrossfadeSamples(cfg)
    ensures offset <= SearchSamples(cfg)
    ensures var emit := EmitAt(m, cfg, inputs, i);
      && |emit| == ChunkLength(cfg, inputs[i]) && emit[0] == StateAfter(m, cfg, inputs[..i]).tail.value[0]
      && forall j :: CrossfadeSamples(cfg) <= j < |emit| ==> emit[j] == inputs[i][offset + j]
  {
    hide CrossfadeSamples, SearchSamples, StateAfter, Align, Lawful;
    var tail := StateAfter(m, cfg, inputs[..i]).tail.value;
    var c := Align(m, cfg, tail, inputs[i]);
    offset := c.offset;
    var n := ChunkLength(cfg, inputs[i]);
    BlendStarts(m, tail, inputs[i][offset..offset + n], c.fellBack);
  }

  lemma BlendStarts(m: Maths, tail: seq<real>, window: seq<real>, fellBack: bool)
    requires Lawful(m) && 0 < |tail| <= |window|
    ensures Blend(m, tail, window, fellBack)[0] == tail[0]
    ensures forall j :: |tail| <= j < |window| ==> Blend(m, tail, window, fellBack)[j] == window[j]
  {
    hide EqualPowerOut, EqualPowerIn, HannOut, HannIn, Lawful;
    FadeStart(m, |tail|);
    assert Times(tail[0], 1.0) + Times(window[0], 0.0) == tail[0];
  }

  /** Sample j of a crossfade of n samples, from `old` to `fresh`: the angle runs
      over the first quarter turn; the gains are its cosine and sine, or for the
      aligned side their squares. */
  lemma MixedSample(m: Maths, tail: seq<real>, window: seq<real>, fellBack: bool, j: nat)
    requires j < |tail| <= |window|
    ensures var angle := m.pi * j as real / (2 * |tail|) as real;
      var c, s := m.cos(angle), m.sin(angle);
      Blend(m, tail, window, fellBack)[j]
        == if fellBack then tail[j] * c + window[j] * s else tail[j] * (c * c) + window[j] * (s * s)
  {
    AngleIs(m.pi, |tail|, j);
  }

  lemma AngleIs(pi: real, n: nat, j: nat)
    requires j < n
    ensures HalfAngle(pi, n, j) == pi * j as real / (2 * n) as real
  {
    var x := pi * j as real;
    assert (x / n as real / 2.0) * (2 * n) as real == x;
  }

  /** Every sample of every call of every run. Without a held tail the call's own
      first samples come out as they are. With one, the samples come from the
      offset that the search finds, the first crossfade of them mixed with the
      tail, by the gains of an aligned or of a fallen back call. */
  lemma EmitSample(m: Maths, cfg: SolaConfig, inputs: seq<seq<real>>, i: nat, j: nat)
    requires Usable(cfg) && i < |inputs| && j < |inputs[i]| - CrossfadeSamples(cfg) - SearchSamples(cfg)
    ensures j < |EmitAt(m, cfg, inputs, i)|
    ensures var x, st, cf, search := inputs[i], StateAfter(m, cfg, inputs[..i]), CrossfadeSamples(cfg), SearchSamples(cfg);
      var emit := EmitAt(m, cfg, inputs, i);
      && (st.tail.None? ==> emit[j] == x[j])
      && (st.tail.Some? ==>
            var c := BestOffset(m.sqrt, st.tail.value, x[..cf + search], search, cfg.threshold);
            && c.offset <= search
            && (if j >= cf || |x| - cf - search < cf then emit[j] == x[c.offset + j]
                else
                  var angle := m.pi * j as real / (2 * cf) as real;
                  var p, q := m.cos(angle), m.sin(angle);
                  emit[j] == if c.fellBack then st.tail.value[j] * p + x[c.offset + j] * q
                             else st.tail.value[j] * (p * p) + x[c.offset + j] * (q * q)))
  {
    hide CrossfadeSamples, SearchSamples, StateAfter, BestOffset, HannOut, HannIn, EqualPowerOut, EqualPowerIn;
    var x, st := inputs[i], StateAfter(m, cfg, inputs[..i]);
    if st.tail.Some? {
      var c := Align(m, cfg, st.tail.value, x);
      var window := x[c.offset..c.offset + ChunkLength(cfg, x)];
      if j < |st.tail.value| <= |window| {
        MixedSample(m, st.tail.value, window, c.fellBack, j);
      }
    }
  }

  /** Every search counts: one that finds nothing as a fallback, one that ends at
      the far edge as clipped; no other call counts anything. */
  lemma CountersFollow(m: Maths, cfg: SolaConfig, inputs: seq<seq<real>>, i: nat)
    requires Usable(cfg) && i < |inputs|
    ensures var x, cf, search := inputs[i], CrossfadeSamples(cfg), SearchSamples(cfg);
      var before, after := StateAfter(m, cfg, inputs[..i]), StateAfter(m, cfg, inputs[..i + 1]);
      if before.tail.None? || |x| <= cf + search then after.fallbacks == before.fallbacks && after.clipped == before.clipped
      else
        var c := BestOffset(m.sqrt, before.tail.value, x[..cf + search], search, cfg.threshold);
        && after.fallbacks - before.fallbacks == (if c.fellBack then 1 else 0)
        && after.clipped - before.clipped == (if !c.fellBack && c.offset == search then 1 else 0)
  {
    assert inputs[..i + 1][..i] == inputs[..i];
    var st := StateAfter(m, cfg, inputs[..i]);
    assert StateAfter(m, cfg, inputs[..i + 1]) == NextState(m, cfg, st, inputs[i]);
    hide CrossfadeSamples, SearchSamples, StateAfter, NextState, BestOffset;
    CallCounts(m, cfg, st, inputs[i]);
  }

  lemma CallCounts(m: Maths, cfg: SolaConfig, st: StreamState, x: seq<real>)
    requires Usable(cfg) && TailFits(st, CrossfadeSamples(cfg))
    ensures var cf, search, after := CrossfadeSamples(cfg), SearchSamples(cfg), NextState(m, cfg, st, x);
      if st.tail.None? || |x| <= cf + search then after.fallbacks == st.fallbacks && after.clipped == st.clipped
      else
        var c := BestOffset(m.sqrt, st.tail.value, x[..cf + search], search, cfg.threshold);
        && after.fallbacks - st.fallbacks == (if c.fellBack then 1 else 0)
        && after.clipped - st.clipped == (if !c.fellBack && c.offset == search then 1 else 0)
  {
    hide CrossfadeSamples, SearchSamples, BestOffset;
  }

  predicate Within(audio: seq<real>, bound: real) {
    forall i :: 0 <= i < |audio| ==> -bound <= audio[i] <= bound
  }

  predicate SquaresWithin(audio: seq<real>, bound: real) {
    forall i :: 0 <= i < |audio| ==> Times(audio[i], audio[i]) <= bound
  }

  lemma ConvexStaysWithin(x: real, y: real, a: real, b: real, bound: real)
    requires -bound <= x <= bound && -bound <= y <= bound
    requires a >= 0.0 && b >= 0.0 && a + b == 1.0
    ensures -bound <= Times(x, a) + Times(y, b) <= bound
  {
    TimesNonNegative(bound - x, a);
    TimesNonNegative(bound - y, b);
    TimesNonNegative(x + bound, a);
    TimesNonNegative(y + bound, b);
    TimesSplits(bound, x, a);
    TimesSplits(bound, y, b);
    TimesOverSum(bound, a, b);
    hide Times;
  }

  lemma TimesSplits(bound: real, x: real, a: real)
    ensures Times(bound - x, a) == Times(bound, a) - Times(x, a)
    ensures Times(x + bound, a) == Times(x, a) + Times(bound, a)
  {
  }

  lemma TimesOverSum(bound: real, a: real, b: real)
    requires a + b == 1.0
    ensures Times(bound, a) + Times(bound, b) == bound
  {
    assert bound * a + bound * b == bound * (a + b);
  }

  lemma LagrangeIdentity(x: real, y: real, a: real, b: real)
    ensures Times(Times(x, a) + Times(y, b), Times(x, a) + Times(y, b))
         == Times(Times(x, x) + Times(y, y), Times(a, a) + Times(b, b)) - Times(x * b - y * a, x * b - y * a)
  {
  }

  lemma SquareWithin(x: real, bound: real)
    requires -bound <= x <= bound
    ensures Times(x, x) <= Times(bound, bound)
  {
    if x >= 0.0 {
      TimesMonotone(x, bound);
    } else {
      TimesMonotone(-x, bound);
      assert Times(-x, -x) == Times(x, x);
    }
  }

  lemma EqualPowerStaysWithin(x: real, y: real, a: real, b: real, bound: real)
    requires -bound <= x <= bound && -bound <= y <= bound
    requires Times(a, a) + Times(b, b) == 1.0
    ensures var z := Times(x, a) + Times(y, b); Times(z, z) <= 2.0 * Times(bound, bound)
  {
    LagrangeIdentity(x, y, a, b);
    SquareSign(x * b - y * a);
    SquareWithin(x, bound);
    SquareWithin(y, bound);
    assert Times(Times(x, x) + Times(y, y), 1.0) == Times(x, x) + Times(y, y);
    hide Times;
  }

  /** One blended block: an aligned one stays within the bound, a fallback one
      within sqrt 2 times the bound. */
  lemma BlendIsBounded(m: Maths, tail: seq<real>, window: seq<real>, fellBack: bool, bound: real)
    requires Lawful(m) && bound >= 0.0 && Within(tail, bound) && Within(window, bound)
    ensures !fellBack ==> Within(Blend(m, tail, window, fellBack), bound)
    ensures SquaresWithin(Blend(m, tail, window, fellBack), 2.0 * Times(bound, bound))
  {
    var r, n := Blend(m, tail, window, fellBack), |tail|;
    hide Times, HannOut, HannIn, EqualPowerOut, EqualPowerIn;
    SquareSign(bound);
    forall i | 0 <= i < |r|
      ensures !fellBack ==> -bound <= r[i] <= bound
      ensures Times(r[i], r[i]) <= 2.0 * Times(bound, bound)
    {
      if |window| >= n && i < n {
        FadeLaws(m, n, i);
        assert window[..n][i] == window[i];
        if fellBack {
          EqualPowerStaysWithin(tail[i], window[i], EqualPowerOut(m, n)[i], EqualPowerIn(m, n)[i], bound);
        } else {
          ConvexStaysWithin(tail[i], window[i], HannOut(m, n)[i], HannIn(m, n)[i], bound);
          SquareWithin(r[i], bound);
        }
      } else {
        SquareWithin(r[i], bound);
      }
    }
  }

  /** In every run whose inputs stay within a bound, a call that does not count
      a fallback emits within the bound, and any call within sqrt 2 times it. */
  lemma RunIsBounded(m: Maths, cfg: SolaConfig, inputs: seq<seq<real>>, i: nat, bound: real)
    requires Lawful(m) && Usable(cfg) && i < |inputs| && bound >= 0.0
    requires forall x :: x in inputs ==> Within(x, bound)
    ensures var e := EmitAt(m, cfg, inputs, i);
      && SquaresWithin(e, 2.0 * Times(bound, bound))
      && (StateAfter(m, cfg, inputs[..i + 1]).fallbacks == StateAfter(m, cfg, inputs[..i]).fallbacks ==> Within(e, bound))
  {
    assert inputs[..i + 1][..i] == inputs[..i];
    TailIsBounded(m, cfg, inputs[..i], bound);
    assert inputs[i] in inputs;
    CallIsBounded(m, cfg, StateAfter(m, cfg, inputs[..i]), inputs[i], bound);
  }

  lemma CallIsBounded(m: Maths, cfg: SolaConfig, st: StreamState, x: seq<real>, bound: real)
    requires Lawful(m) && Usable(cfg) && TailFits(st, CrossfadeSamples(cfg)) && bound >= 0.0
    requires Within(x, bound) && (st.tail.Some? ==> Within(st.tail.value, bound))
    ensures SquaresWithin(Emitted(m, cfg, st, x), 2.0 * Times(bound, bound))
    ensures NextState(m, cfg, st, x).fallbacks == st.fallbacks ==> Within(Emitted(m, cfg, st, x), bound)
  {
    hide Times, Blend, Align, CrossfadeSamples, SearchSamples, Lawful;
    var n := ChunkLength(cfg, x);
    if n > 0 && st.tail.Some? {
      var c := Align(m, cfg, st.tail.value, x);
      BlendIsBounded(m, st.tail.value, x[c.offset..c.offset + n], c.fellBack, bound);
    } else if n > 0 {
      WithinSquares(x[..n], bound);
    }
  }

  lemma WithinSquares(audio: seq<real>, bound: real)
    requires Within(audio, bound) && bound >= 0.0
    ensures SquaresWithin(audio, 2.0 * Times(bound, bound))
  {
    hide Times;
    SquareSign(bound);
    forall i | 0 <= i < |audio| ensures Times(audio[i], audio[i]) <= 2.0 * Times(bound, bound) {
      SquareWithin(audio[i], bound);
    }
  }

  lemma {:induction false} TailIsBounded(m: Maths, cfg: SolaConfig, inputs: seq<seq<real>>, bound: real)
    requires Usable(cfg) && forall x :: x in inputs ==> Within(x, bound)
    ensures var st := StateAfter(m, cfg, inputs); st.tail.Some? ==> Within(st.tail.value, bound)
  {
    if inputs != [] {
      assert inputs[|inputs| - 1] in inputs;
    }
  }

  // ---------- the stream object ----------

  class SolaStream {
    const m: Maths
    const cfg: SolaConfig
    const fadeOut: seq<real>
    const fadeIn: seq<real>
    const fadeOutEqualPower: seq<real>
    const fadeInEqualPower: seq<real>
    var prevTail: Option<seq<real>>
    var fallbackCount: nat
    var searchWindowClipped: nat

    ghost predicate Valid()
      reads this
    {
      && Usable(cfg)
      && fadeOut == HannOut(m, CrossfadeSamples(cfg)) && fadeIn == HannIn(m, CrossfadeSamples(cfg))
      && fadeOutEqualPower == EqualPowerOut(m, CrossfadeSamples(cfg))
      && fadeInEqualPower == EqualPowerIn(m, CrossfadeSamples(cfg))
      && TailFits(State(), CrossfadeSamples(cfg))
    }

    ghost function State(): StreamState
      reads this
    {
      StreamState(prevTail, fallbackCount, searchWindowClipped)
    }

    constructor (m: Maths, cfg: SolaConfig)
      requires Usable(cfg)
      ensures Valid() && this.m == m && this.cfg == cfg && State() == FRESH
    {
      this.m, this.cfg := m, cfg;
      fadeOut, fadeIn := HannOut(m, CrossfadeSamples(cfg)), HannIn(m, CrossfadeSamples(cfg));
      fadeOutEqualPower := EqualPowerOut(m, CrossfadeSamples(cfg));
      fadeInEqualPower := EqualPowerIn(m, CrossfadeSamples(cfg));
      prevTail, fallbackCount, searchWindowClipped := None, 0, 0;
    }

    method Reset()
      requires Valid()
      modifies this
      ensures Valid() && State() == FRESH
    {
      prevTail, fallbackCount, searchWindowClipped := None, 0, 0;
    }

    method Process(audio: seq<real>) returns (emit: seq<real>)
      requires Valid()
      modifies this
      ensures Valid()
      ensures State() == NextState(m, cfg, old(State()), audio)
      ensures emit == Emitted(m, cfg, old(State()), audio)
    {
      hide CrossfadeSamples, SearchSamples, HannOut, HannIn, EqualPowerOut, EqualPowerIn, BestOffset, Mix;
      var cf, search := CrossfadeSamples(cfg), SearchSamples(cfg);
      var chunk := |audio| - cf - search;
      if chunk <= 0 {
        prevTail := if |audio| >= cf then Some(audio[|audio| - cf..]) else None;
        return [];
      }
      if prevTail.None? {
        prevTail := Some(audio[|audio| - cf..]);
        return audio[..chunk];
      }
      var choice := BestOffset(m.sqrt, prevTail.value, audio[..cf + search], search, cfg.threshold);
      if choice.fellBack {
        fallbackCount := fallbackCount + 1;
      } else if choice.clipped {
        searchWindowClipped := searchWindowClipped + 1;
      }
      emit := audio[choice.offset..choice.offset + chunk];
      if chunk >= cf {
        if choice.fellBack {
          emit := FadedStart(emit, prevTail.value, fadeOutEqualPower, fadeInEqualPower);
        } else {
          emit := FadedStart(emit, prevTail.value, fadeOut, fadeIn);
        }
      }
      prevTail := Some(audio[|audio| - cf..]);
    }

    /** Emits the held tail under a linear fade-out and forgets it. */
    method Flush() returns (out: seq<real>)
      requires Valid()
      modifies this
      ensures Valid() && State() == old(State()).(tail := None)
      ensures old(prevTail).None? ==> out == []
      ensures old(prevTail).Some? ==> out == FadedTail(old(prevTail).value)
    {
      if prevTail.None? {
        return [];
      }
      var tail := prevTail.value;
      out := if |tail| > 1 then seq(|tail|, i requires 0 <= i < |tail| => Times(tail[i], FadeStep(|tail|, i))) else tail;
      prevTail := None;
    }
  }

  /** A copy of `emit` whose first samples are crossfaded in place with the tail. */
  method FadedStart(emit: seq<real>, tail: seq<real>, fadeOut: seq<real>, fadeIn: seq<real>) returns (faded: seq<real>)
    requires |tail| == |fadeOut| == |fadeIn| <= |emit|
    ensures faded == Mix(tail, emit[..|tail|], fadeOut, fadeIn) + emit[|tail|..]
  {
    var buffer := new real[|emit|](i requires 0 <= i < |emit| => emit[i]);
    var i := 0;
    while i < |tail|
      invariant i <= |tail|
      invariant forall k :: 0 <= k < i ==> buffer[k] == Times(tail[k], fadeOut[k]) + Times(emit[k], fadeIn[k])
      invariant forall k :: i <= k < |emit| ==> buffer[k] == emit[k]
    {
      buffer[i] := Times(tail[i], fadeOut[i]) + Times(buffer[i], fadeIn[i]);
      i := i + 1;
    }
    faded := buffer[..];
  }

  /** i-th of n points from 1 down to 0. */
  function FadeStep(n: nat, i: nat): real
    requires i < n && n > 1
  {
    1.0 - i as real / (n - 1) as real
  }

  function FadedTail(tail: seq<real>): (r: seq<real>)
    ensures |r| == |tail|
  {
    if |tail| > 1 then seq(|tail|, i requires 0 <= i < |tail| => Times(tail[i], FadeStep(|tail|, i))) else tail
  }

  lemma LinearStep(x: real, i: nat, d: nat)
    requires d > 0
    ensures Times(x, 1.0 - i as real / d as real) * d as real == x * (d - i) as real
  {
    var q := i as real / d as real;
    assert q * d as real == i as real;
    assert (x * (1.0 - q)) * d as real == x * (d as real - q * d as real);
  }

  /** The fall is linear: sample i keeps all but i of |tail| - 1 equal parts. A
      tail of one sample stays as it is. */
  lemma FlushIsLinear(tail: seq<real>, i: nat)
    requires i < |tail|
    ensures |tail| == 1 ==> FadedTail(tail)[i] == tail[i]
    ensures FadedTail(tail)[i] * (|tail| - 1) as real == tail[i] * (|tail| - 1 - i) as real
  {
    if |tail| > 1 {
      LinearStep(tail[i], i, |tail| - 1);
      hide Times;
    }
  }

  /** The flushed tail starts at full level, ends in silence, and never exceeds
      the held samples. */
  lemma FlushFadesOut(tail: seq<real>, i: nat)
    requires |tail| > 1 && i < |tail|
    ensures FadedTail(tail)[0] == tail[0] && FadedTail(tail)[|tail| - 1] == 0.0
    ensures 0.0 <= FadeStep(|tail|, i) <= 1.0
    ensures i + 1 < |tail| ==> FadeStep(|tail|, i + 1) < FadeStep(|tail|, i)
  {
    var d := (|tail| - 1) as real;
    assert d / d == 1.0 && 0.0 / d == 0.0;
    assert i as real / d <= 1.0;
    assert (i + 1) as real / d == i as real / d + 1.0 / d;
  }
}
