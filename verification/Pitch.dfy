// Pitch-gap bridging: short unvoiced runs of a pitch track are replaced by a
// log-linear glide between their voiced neighbours, with a carry that lets a
// gap span two chunks; and the mapping from pitch to coarse bins.
module Pitch {
  import opened Samples

  const VOICED_GAP_MAX_FRAMES: nat := 8

  /** A frame of the extractor's track, in Hz or not a number. */
  datatype Frame = NaN | Hz(value: real)

  predicate Invalid(f: Frame) {
    f.NaN? || f.value <= 0.0
  }

  /** NaN becomes 0; any other value stays, negative ones included. */
  function Clean(f: Frame): real {
    if f.NaN? then 0.0 else f.value
  }

  /** Natural logarithm and exponential. */
  datatype LogExp = LogExp(log: real -> real, exp: real -> real)

  ghost predicate Lawful(m: LogExp) {
    && (forall x: real :: m.exp(x) > 0.0)
    && (forall x: real :: m.log(m.exp(x)) == x)
    && (forall x: real :: x > 0.0 ==> m.exp(m.log(x)) == x)
    && (forall x: real, y: real :: x < y ==> m.exp(x) < m.exp(y))
    && m.exp(0.0) == 1.0
  }

  /** The last voiced pitch before a chunk and how many frames ago it was, or
      (0, -1) when none is known. */
  datatype Carry = Carry(f0: real, age: int)

  const NO_CARRY := Carry(0.0, -1)

  // ---------- specification ----------

  /** Index of the last valid frame before i, or -1. */
  function LastValid(s: seq<Frame>, i: nat): (k: int)
    requires i <= |s|
    ensures -1 <= k < i
    ensures k >= 0 ==> !Invalid(s[k])
    ensures forall j :: k < j < i ==> Invalid(s[j])
  {
    if i == 0 then -1 else if !Invalid(s[i - 1]) then i - 1 else LastValid(s, i - 1)
  }

  /** Index of the first valid frame from i on, or the length. */
  function NextValid(s: seq<Frame>, i: nat): (k: nat)
    requires i <= |s|
    ensures i <= k <= |s|
    ensures k < |s| ==> !Invalid(s[k])
    ensures forall j :: i <= j < k ==> Invalid(s[j])
    decreases |s| - i
  {
    if i == |s| then i else if !Invalid(s[i]) then i else NextValid(s, i + 1)
  }

  function Ratio(step: int, span: int): real
    requires span > 0
  {
    step as real / span as real
  }

  function Blend(p: real, q: real, a: real): real {
    p * (1.0 - a) + q * a
  }

  /** Point at `step` of `span` on the log-linear glide from lo to hi. */
  function Glide(m: LogExp, lo: real, hi: real, step: int, span: int): real
    requires span > 0
  {
    m.exp(Blend(m.log(lo), m.log(hi), Ratio(step, span)))
  }

  predicate HavePrior(c: Carry) {
    c.f0 > 0.0 && 0 <= c.age < VOICED_GAP_MAX_FRAMES
  }

  /** A gap inside the chunk: bracketed by two valid frames and short enough. */
  predicate InnerGap(s: seq<Frame>, i: nat)
    requires i < |s|
  {
    var lo, hi := LastValid(s, i), NextValid(s, i);
    Invalid(s[i]) && lo >= 0 && hi < |s| && hi - lo - 1 <= VOICED_GAP_MAX_FRAMES
  }

  /** A gap at the start of the chunk that the carried frame brackets. */
  predicate LeadingGap(s: seq<Frame>, c: Carry, i: nat)
    requires i < |s|
  {
    var lo, hi := LastValid(s, i), NextValid(s, i);
    && Invalid(s[i]) && lo < 0 && hi < |s|
    && HavePrior(c) && c.age + hi <= VOICED_GAP_MAX_FRAMES
  }

  function BridgedFrame(m: LogExp, s: seq<Frame>, c: Carry, i: nat): real
    requires i < |s|
  {
    var lo, hi := LastValid(s, i), NextValid(s, i);
    if InnerGap(s, i) then Glide(m, s[lo].value, s[hi].value, i - lo, hi - lo)
    else if LeadingGap(s, c, i) then Glide(m, c.f0, s[hi].value, i + c.age + 1, hi + c.age + 1)
    else Clean(s[i])
  }

  function Bridged(m: LogExp, s: seq<Frame>, c: Carry): (r: seq<real>)
    ensures |r| == |s|
  {
    seq(|s|, i requires 0 <= i < |s| => BridgedFrame(m, s, c, i))
  }

  lemma LastValidIs(s: seq<Frame>, i: nat, k: int)
    requires i <= |s| && -1 <= k < i && (k >= 0 ==> !Invalid(s[k]))
    requires forall j :: k < j < i ==> Invalid(s[j])
    ensures LastValid(s, i) == k
  {
  }

  lemma NextValidIs(s: seq<Frame>, i: nat, k: nat)
    requires i <= k <= |s| && (k < |s| ==> !Invalid(s[k]))
    requires forall j :: i <= j < k ==> Invalid(s[j])
    ensures NextValid(s, i) == k
  {
  }

  /** Bridging one maximal run [i, j) as the loop does. */
  lemma RunIsBridged(m: LogExp, s: seq<Frame>, c: Carry, i: nat, j: nat, k: nat)
    requires i <= k < j <= |s| && (i > 0 ==> !Invalid(s[i - 1])) && (j < |s| ==> !Invalid(s[j]))
    requires forall l :: i <= l < j ==> Invalid(s[l])
    ensures var short := j - i <= VOICED_GAP_MAX_FRAMES && j < |s|;
      BridgedFrame(m, s, c, k) ==
        if short && i > 0 then Glide(m, s[i - 1].value, s[j].value, k - (i - 1), j - (i - 1))
        else if short && i == 0 && HavePrior(c) && c.age + (j - i) <= VOICED_GAP_MAX_FRAMES
        then Glide(m, c.f0, s[j].value, k + c.age + 1, j + c.age + 1)
        else Clean(s[k])
  {
    hide Glide, LastValid, NextValid;
    LastValidIs(s, k, i - 1);
    NextValidIs(s, k, j);
  }

  lemma GlideIs(m: LogExp, lo: real, hi: real, step: int, span: int)
    requires Lawful(m) && span > 0
    ensures Glide(m, lo, hi, step, span) > 0.0
    ensures Times(m.log(Glide(m, lo, hi, step, span)), span as real)
         == Times(m.log(lo), (span - step) as real) + Times(m.log(hi), step as real)
  {
    BlendShares(m.log(lo), m.log(hi), step, span);
    hide Blend, Ratio, Times;
  }

  lemma BlendShares(p: real, q: real, step: int, span: int)
    requires span > 0
    ensures Times(Blend(p, q, Ratio(step, span)), span as real) == Times(p, (span - step) as real) + Times(q, step as real)
  {
    var a, n := Ratio(step, span), span as real;
    assert a * n == step as real;
    assert (p * (1.0 - a) + q * a) * n == p * (n - a * n) + q * (a * n);
  }

  lemma PriorIs(c: Carry)
    ensures HavePrior(c) <==> c.f0 > 0.0 && 0 <= c.age < 8
  {
  }

  /** What becomes of frame k of a maximal unvoiced run [i, j). If the run is at
      most 8 frames and ends on a voiced one, it is filled in equal steps of log
      pitch from the voiced frame before it, or, at the start of a chunk, from a
      carried pitch that lies at most 8 unvoiced frames before that end; any other
      run only has its NaNs set to 0. */
  lemma RunFormula(m: LogExp, s: seq<Frame>, c: Carry, i: nat, j: nat, k: nat)
    requires Lawful(m) && i <= k < j <= |s|
    requires (i > 0 ==> s[i - 1].Hz? && s[i - 1].value > 0.0) && (j < |s| ==> s[j].Hz? && s[j].value > 0.0)
    requires forall l :: i <= l < j ==> s[l].NaN? || s[l].value <= 0.0
    ensures var out := BridgedFrame(m, s, c, k);
      if j < |s| && j - i <= 8 && i > 0 then
        && out > 0.0
        && Times(m.log(out), (j - i + 1) as real)
             == Times(m.log(s[i - 1].value), (j - k) as real) + Times(m.log(s[j].value), (k - i + 1) as real)
      else if j < |s| && j - i <= 8 && c.f0 > 0.0 && 0 <= c.age < 8 && c.age + j <= 8 then
        && out > 0.0
        && Times(m.log(out), (j + c.age + 1) as real)
             == Times(m.log(c.f0), (j - k) as real) + Times(m.log(s[j].value), (k + c.age + 1) as real)
      else out == if s[k].NaN? then 0.0 else s[k].value
  {
    RunIsBridged(m, s, c, i, j, k);
    PriorIs(c);
    if j < |s| && i > 0 {
      GlideIs(m, s[i - 1].value, s[j].value, k - (i - 1), j - (i - 1));
    } else if j < |s| && c.age >= 0 {
      GlideIs(m, c.f0, s[j].value, k + c.age + 1, j + c.age + 1);
    }
    hide Glide, BridgedFrame, Lawful, Times, HavePrior;
  }

  lemma ValidFrameKept(m: LogExp, s: seq<Frame>, c: Carry, i: nat)
    requires i < |s| && !Invalid(s[i])
    ensures BridgedFrame(m, s, c, i) == Clean(s[i]) == s[i].value > 0.0
  {
  }

  /** A frame with no valid frame after it is not bridged. */
  lemma UnvoicedEndKept(m: LogExp, s: seq<Frame>, c: Carry, i: nat)
    requires i < |s| && forall j :: i <= j < |s| ==> Invalid(s[j])
    ensures BridgedFrame(m, s, c, i) == Clean(s[i]) <= 0.0
  {
    NextValidIs(s, i, |s|);
  }

  // ---------- what bridging guarantees ----------

  predicate InGap(s: seq<Frame>, c: Carry, i: nat)
    requires i < |s|
  {
    InnerGap(s, i) || LeadingGap(s, c, i)
  }

  /** Frames of one run share their anchors. */
  lemma SameRun(s: seq<Frame>, i: nat, k: nat)
    requires i < |s| && LastValid(s, i) < k < NextValid(s, i)
    requires Invalid(s[i])
    ensures Invalid(s[k]) && LastValid(s, k) == LastValid(s, i) && NextValid(s, k) == NextValid(s, i)
  {
    LastValidIs(s, k, LastValid(s, i));
    NextValidIs(s, k, NextValid(s, i));
  }

  lemma LogMonotone(m: LogExp, x: real, y: real)
    requires Lawful(m) && 0.0 < x < y
    ensures m.log(x) < m.log(y)
  {
    assert m.exp(m.log(x)) == x && m.exp(m.log(y)) == y;
  }

  /** y lies strictly after x on the way from lo to hi, or all coincide. */
  predicate Moves(lo: real, hi: real, x: real, y: real) {
    && (lo < hi ==> x < y)
    && (lo == hi ==> x == y == lo)
    && (lo > hi ==> x > y)
  }

  lemma BlendMoves(p: real, q: real, a: real, b: real)
    requires a < b
    ensures Moves(p, q, Blend(p, q, a), Blend(p, q, b))
  {
    assert Blend(p, q, b) - Blend(p, q, a) == (q - p) * (b - a);
    if p < q {
      assert (q - p) * (b - a) > 0.0;
    } else if p > q {
      assert (p - q) * (b - a) > 0.0;
    }
  }

  lemma RatioMonotone(step: int, later: int, span: int)
    requires step < later && span > 0
    ensures Ratio(step, span) < Ratio(later, span)
  {
  }

  lemma RatioEnds(span: int)
    requires span > 0
    ensures Ratio(0, span) == 0.0 && Ratio(span, span) == 1.0
  {
  }

  lemma ExpMoves(m: LogExp, lo: real, hi: real, x: real, y: real)
    requires Lawful(m) && lo > 0.0 && hi > 0.0 && Moves(m.log(lo), m.log(hi), x, y)
    ensures Moves(lo, hi, m.exp(x), m.exp(y))
  {
    if lo < hi {
      LogMonotone(m, lo, hi);
    } else if hi < lo {
      LogMonotone(m, hi, lo);
    }
  }

  /** The glide moves strictly from lo to hi. */
  lemma GlideIsMonotone(m: LogExp, lo: real, hi: real, step: int, later: int, span: int)
    requires Lawful(m) && lo > 0.0 && hi > 0.0 && span > 0 && step < later
    ensures Moves(lo, hi, Glide(m, lo, hi, step, span), Glide(m, lo, hi, later, span))
  {
    hide Ratio, Blend, Moves, Lawful;
    RatioMonotone(step, later, span);
    BlendMoves(m.log(lo), m.log(hi), Ratio(step, span), Ratio(later, span));
    ExpMoves(m, lo, hi, Blend(m.log(lo), m.log(hi), Ratio(step, span)), Blend(m.log(lo), m.log(hi), Ratio(later, span)));
  }

  /** It starts at lo and ends at hi. */
  lemma GlideEnds(m: LogExp, lo: real, hi: real, span: int)
    requires Lawful(m) && lo > 0.0 && hi > 0.0 && span > 0
    ensures Glide(m, lo, hi, 0, span) == lo
    ensures Glide(m, lo, hi, span, span) == hi
  {
    RatioEnds(span);
    hide Ratio;
  }

  lemma InnerAnchors(s: seq<Frame>, i: nat)
    requires i < |s| && InnerGap(s, i)
    ensures 0 <= LastValid(s, i) < i < NextValid(s, i) < |s|
    ensures !Invalid(s[LastValid(s, i)]) && s[LastValid(s, i)].Hz? && s[LastValid(s, i)].value > 0.0
    ensures !Invalid(s[NextValid(s, i)]) && s[NextValid(s, i)].Hz? && s[NextValid(s, i)].value > 0.0
  {
  }

  lemma LeadingAnchors(s: seq<Frame>, c: Carry, i: nat)
    requires i < |s| && LeadingGap(s, c, i)
    ensures i < NextValid(s, i) < |s| && c.f0 > 0.0 && c.age >= 0
    ensures !Invalid(s[NextValid(s, i)]) && s[NextValid(s, i)].Hz? && s[NextValid(s, i)].value > 0.0
  {
  }

  /** Everything from one anchor of an inner gap to the other, anchors included,
      lies on one glide. */
  lemma InnerGapIsGlide(m: LogExp, s: seq<Frame>, c: Carry, i: nat, k: nat)
    requires Lawful(m) && i < |s| && InnerGap(s, i)
    requires LastValid(s, i) <= k <= NextValid(s, i)
    ensures var lo, hi := LastValid(s, i), NextValid(s, i);
      BridgedFrame(m, s, c, k) == Glide(m, s[lo].value, s[hi].value, k - lo, hi - lo)
  {
    var lo, hi := LastValid(s, i), NextValid(s, i);
    GlideEnds(m, s[lo].value, s[hi].value, hi - lo);
    if lo < k < hi {
      SameRun(s, i, k);
    } else {
      ValidFrameKept(m, s, c, k);
    }
    hide Glide;
  }

  lemma LeadingGapIsGlide(m: LogExp, s: seq<Frame>, c: Carry, i: nat, k: nat)
    requires Lawful(m) && i < |s| && LeadingGap(s, c, i)
    requires k <= NextValid(s, i)
    ensures var hi := NextValid(s, i);
      BridgedFrame(m, s, c, k) == Glide(m, c.f0, s[hi].value, k + c.age + 1, hi + c.age + 1)
  {
    var hi := NextValid(s, i);
    GlideEnds(m, c.f0, s[hi].value, hi + c.age + 1);
    if k < hi {
      SameRun(s, i, k);
    } else {
      ValidFrameKept(m, s, c, k);
    }
    hide Glide;
  }

  /** Bridging moves strictly and monotonically from one anchor to the other,
      so every bridged value lies between them. */
  lemma InnerGapIsMonotone(m: LogExp, s: seq<Frame>, c: Carry, i: nat, k: nat, l: nat)
    requires Lawful(m) && i < |s| && InnerGap(s, i)
    requires LastValid(s, i) <= k < l <= NextValid(s, i)
    ensures var from, to := s[LastValid(s, i)].value, s[NextValid(s, i)].value;
      && BridgedFrame(m, s, c, LastValid(s, i)) == from && BridgedFrame(m, s, c, NextValid(s, i)) == to
      && Moves(from, to, BridgedFrame(m, s, c, k), BridgedFrame(m, s, c, l))
  {
    var lo, hi := LastValid(s, i), NextValid(s, i);
    hide *;
    InnerAnchors(s, i);
    InnerGapIsGlide(m, s, c, i, k);
    InnerGapIsGlide(m, s, c, i, l);
    GlideIsMonotone(m, s[lo].value, s[hi].value, k - lo, l - lo, hi - lo);
    ValidFrameKept(m, s, c, lo);
    ValidFrameKept(m, s, c, hi);
  }

  /** The same at the start of a chunk, the carried pitch being the far anchor. */
  lemma LeadingGapIsMonotone(m: LogExp, s: seq<Frame>, c: Carry, i: nat, k: nat, l: nat)
    requires Lawful(m) && i < |s| && LeadingGap(s, c, i)
    requires k < l <= NextValid(s, i)
    ensures var from, to := c.f0, s[NextValid(s, i)].value;
      && BridgedFrame(m, s, c, NextValid(s, i)) == to
      && Moves(from, to, from, BridgedFrame(m, s, c, k))
      && Moves(from, to, BridgedFrame(m, s, c, k), BridgedFrame(m, s, c, l))
  {
    hide *;
    LeadingAnchors(s, c, i);
    var hi := NextValid(s, i);
    var from, to, first, span := c.f0, s[hi].value, c.age + 1, hi + c.age + 1;
    assert Moves(from, to, from, BridgedFrame(m, s, c, k)) by {
      LeadingGapIsGlide(m, s, c, i, k);
      GlideIsMonotone(m, from, to, 0, k + first, span);
      GlideEnds(m, from, to, span);
    }
    assert Moves(from, to, BridgedFrame(m, s, c, k), BridgedFrame(m, s, c, l)) by {
      LeadingGapIsGlide(m, s, c, i, k);
      LeadingGapIsGlide(m, s, c, i, l);
      GlideIsMonotone(m, from, to, k + first, l + first, span);
    }
    ValidFrameKept(m, s, c, hi);
  }

  /** What becomes of each frame: voiced ones stay, gap frames become voiced,
      and the rest become 0 unless they were negative. */
  lemma FrameOutcome(m: LogExp, s: seq<Frame>, c: Carry, i: nat)
    requires Lawful(m) && i < |s|
    ensures !Invalid(s[i]) ==> BridgedFrame(m, s, c, i) == s[i].value
    ensures BridgedFrame(m, s, c, i) > 0.0 <==> !Invalid(s[i]) || InGap(s, c, i)
    ensures Invalid(s[i]) && !InGap(s, c, i) ==>
      (BridgedFrame(m, s, c, i) == 0.0 <==> s[i].NaN? || s[i].value == 0.0)
  {
  }

  /** Negative frames outside gaps survive bridging. */
  lemma NegativeFrameSurvives(m: LogExp)
    ensures Invalid(Hz(-1.0)) && !InGap([Hz(-1.0)], NO_CARRY, 0)
    ensures Bridged(m, [Hz(-1.0)], NO_CARRY) == [-1.0]
  {
    NextValidIs([Hz(-1.0)], 0, 1);
  }

  function AsFrames(r: seq<real>): (s: seq<Frame>)
    ensures |s| == |r| && forall i :: 0 <= i < |r| ==> s[i] == Hz(r[i])
  {
    seq(|r|, i requires 0 <= i < |r| => Hz(r[i]))
  }

  lemma GapsDoNotReopen(m: LogExp, s: seq<Frame>, c: Carry, again: Carry, i: nat)
    requires Lawful(m) && i < |s| && (again == c || !HavePrior(again))
    ensures BridgedFrame(m, AsFrames(Bridged(m, s, c)), again, i) == BridgedFrame(m, s, c, i)
  {
    hide Glide, InnerGap, LeadingGap;
    var t := AsFrames(Bridged(m, s, c));
    forall k | 0 <= k < |s| ensures Invalid(t[k]) <==> Invalid(s[k]) && !InGap(s, c, k) {
      FrameOutcome(m, s, c, k);
    }
    if !Invalid(t[i]) {
      ValidFrameKept(m, t, again, i);
    } else {
      UnbridgedRunStays(s, t, c, again, i);
    }
  }

  lemma UnbridgedRunStays(s: seq<Frame>, t: seq<Frame>, c: Carry, again: Carry, i: nat)
    requires i < |s| == |t| && (again == c || !HavePrior(again)) && Invalid(t[i])
    requires forall k :: 0 <= k < |s| ==> (Invalid(t[k]) <==> Invalid(s[k]) && !InGap(s, c, k))
    ensures !InGap(t, again, i)
  {
    var lo, hi := LastValid(s, i), NextValid(s, i);
    forall k | lo < k < hi ensures Invalid(t[k]) {
      SameRun(s, i, k);
    }
    LastValidIs(t, i, lo);
    NextValidIs(t, i, hi);
  }

  /** Bridging a bridged track, with the same carry or none, changes nothing. */
  lemma BridgingIsIdempotent(m: LogExp, s: seq<Frame>, c: Carry, again: Carry)
    requires Lawful(m) && (again == c || !HavePrior(again))
    ensures Bridged(m, AsFrames(Bridged(m, s, c)), again) == Bridged(m, s, c)
  {
    forall i | 0 <= i < |s|
      ensures BridgedFrame(m, AsFrames(Bridged(m, s, c)), again, i) == BridgedFrame(m, s, c, i)
    {
      GapsDoNotReopen(m, s, c, again, i);
    }
    hide BridgedFrame;
  }

  // ---------- the run-walking loop ----------

  /** The loop's progress: frames before i are final, the rest only cleaned. */
  ghost predicate BridgedUpTo(m: LogExp, s: seq<Frame>, c: Carry, i: int, out: seq<real>) {
    && |out| == |s| && 0 <= i <= |s|
    && (forall k :: 0 <= k < i ==> out[k] == BridgedFrame(m, s, c, k))
    && (forall k :: i <= k < |s| ==> out[k] == Clean(s[k]))
  }

  lemma ValidStep(m: LogExp, s: seq<Frame>, c: Carry, i: nat, out: seq<real>)
    requires i < |s| && !Invalid(s[i]) && BridgedUpTo(m, s, c, i, out)
    ensures BridgedUpTo(m, s, c, i + 1, out)
    ensures LastValid(s, i + 1) == i
  {
    ValidFrameKept(m, s, c, i);
    hide BridgedFrame;
  }

  lemma FullyBridged(m: LogExp, s: seq<Frame>, c: Carry, out: seq<real>)
    requires BridgedUpTo(m, s, c, |s|, out)
    ensures out == Bridged(m, s, c)
  {
    hide BridgedFrame;
  }

  /** Nothing to bridge when every frame is valid, or none is. */
  lemma NothingToBridge(m: LogExp, s: seq<Frame>, c: Carry, out: seq<real>)
    requires BridgedUpTo(m, s, c, 0, out)
    requires (forall k :: 0 <= k < |s| ==> !Invalid(s[k])) || (forall k :: 0 <= k < |s| ==> Invalid(s[k]))
    ensures out == Bridged(m, s, c)
  {
    forall k | 0 <= k < |s| ensures BridgedFrame(m, s, c, k) == Clean(s[k]) {
      if Invalid(s[k]) {
        UnvoicedEndKept(m, s, c, k);
      } else {
        ValidFrameKept(m, s, c, k);
      }
    }
    hide BridgedFrame;
  }

  method InterpolateVoicedGaps(m: LogExp, pitchf: seq<Frame>, prior: Carry) returns (r: seq<real>)
    ensures r == Bridged(m, pitchf, prior)
  {
    var n := |pitchf|;
    var havePrior := prior.f0 > 0.0 && prior.age >= 0 && prior.age < VOICED_GAP_MAX_FRAMES;
    var out := new real[n](i requires 0 <= i < n => Clean(pitchf[i]));
    assert BridgedUpTo(m, pitchf, prior, 0, out[..]) by {
      hide BridgedFrame, Clean;
    }
    if forall k :: 0 <= k < n ==> !Invalid(pitchf[k]) {
      NothingToBridge(m, pitchf, prior, out[..]);
      return out[..];
    }
    if forall k :: 0 <= k < n ==> Invalid(pitchf[k]) {
      NothingToBridge(m, pitchf, prior, out[..]);
      return out[..];
    }
    WalkRuns(m, pitchf, prior, out, havePrior);
    r := out[..];
  }

  method WalkRuns(m: LogExp, pitchf: seq<Frame>, prior: Carry, out: array<real>, havePrior: bool)
    requires BridgedUpTo(m, pitchf, prior, 0, out[..]) && havePrior == HavePrior(prior)
    modifies out
    ensures out[..] == Bridged(m, pitchf, prior)
  {
    hide *;
    var n := |pitchf|;
    var lastValid := -1;
    var i := 0;
    LastValidIs(pitchf, 0, -1);
    while i < n
      invariant 0 <= i <= n
      invariant lastValid == LastValid(pitchf, i)
      invariant lastValid == i - 1 || i == n || !Invalid(pitchf[i])
      invariant BridgedUpTo(m, pitchf, prior, i, out[..])
    {
      if !Invalid(pitchf[i]) {
        ValidStep(m, pitchf, prior, i, out[..]);
        lastValid := i;
        i := i + 1;
        continue;
      }
      var j := RunEnd(pitchf, i);
      BridgeRun(m, pitchf, prior, out, i, j, lastValid, havePrior);
      LastValidIs(pitchf, j, lastValid);
      i := j;
    }
    FullyBridged(m, pitchf, prior, out[..]);
  }

  /** Rewrites one maximal run of invalid frames. */
  method BridgeRun(m: LogExp, pitchf: seq<Frame>, prior: Carry, out: array<real>, i: nat, j: nat, lastValid: int, havePrior: bool)
    requires i < j <= |pitchf| && lastValid == i - 1 && BridgedUpTo(m, pitchf, prior, i, out[..])
    requires i > 0 ==> !Invalid(pitchf[i - 1])
    requires j < |pitchf| ==> !Invalid(pitchf[j])
    requires forall k :: i <= k < j ==> Invalid(pitchf[k])
    requires havePrior == HavePrior(prior)
    modifies out
    ensures BridgedUpTo(m, pitchf, prior, j, out[..])
  {
    if i > 0 {
      ValidFrameKept(m, pitchf, prior, i - 1);
    }
    hide Glide, BridgedFrame;
    ghost var before := out[..];
    var runLen := j - i;
    if runLen <= VOICED_GAP_MAX_FRAMES && lastValid >= 0 && j < |pitchf| && out[lastValid] > 0.0 && out[j] > 0.0 {
      FillGlide(m, out, i, j, out[lastValid], out[j], i - lastValid, j - lastValid);
    } else if runLen <= VOICED_GAP_MAX_FRAMES && lastValid < 0 && j < |pitchf| && havePrior && out[j] > 0.0
              && prior.age + runLen <= VOICED_GAP_MAX_FRAMES {
      FillGlide(m, out, i, j, prior.f0, out[j], i + prior.age + 1, j + prior.age + 1);
    }
    forall k | i <= k < j ensures out[k] == BridgedFrame(m, pitchf, prior, k) {
      RunIsBridged(m, pitchf, prior, i, j, k);
    }
    assert forall k :: 0 <= k < i || j <= k < |pitchf| ==> out[k] == before[k];
  }

  method RunEnd(pitchf: seq<Frame>, i: nat) returns (j: nat)
    requires i < |pitchf| && Invalid(pitchf[i])
    ensures i < j <= |pitchf| && (j < |pitchf| ==> !Invalid(pitchf[j]))
    ensures forall k :: i <= k < j ==> Invalid(pitchf[k])
  {
    j := i;
    while j < |pitchf| && Invalid(pitchf[j])
      invariant i <= j <= |pitchf|
      invariant forall k :: i <= k < j ==> Invalid(pitchf[k])
    {
      j := j + 1;
    }
  }

  /** `out[i:j] = exp(...)`: the glide from step `first` on. */
  method FillGlide(m: LogExp, out: array<real>, i: nat, j: nat, lo: real, hi: real, first: int, span: int)
    requires i <= j <= out.Length && span > 0
    modifies out
    ensures forall k :: 0 <= k < out.Length ==>
      out[k] == if i <= k < j then Glide(m, lo, hi, first + (k - i), span) else old(out[k])
  {
    var k := i;
    while k < j
      invariant i <= k <= j
      invariant forall l :: 0 <= l < out.Length ==>
        out[l] == if i <= l < k then Glide(m, lo, hi, first + (l - i), span) else old(out[l])
    {
      out[k] := Glide(m, lo, hi, first + (k - i), span);
      k := k + 1;
    }
  }
}
