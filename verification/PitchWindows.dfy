// The pitch carry as the streaming engine uses it: each window repeats the last
// `overlap` frames already seen before its new ones, while the carry's age is
// counted from the previous window's end. Which frames still agree with
// bridging the whole track, and which do not.
module PitchWindows {
  import opened Pitch
  import opened PitchCarry

  /** The frames the extractor sees: the end of the past, then the new frames. */
  function WindowOf(past: seq<Frame>, overlap: nat, newer: seq<Frame>): (w: seq<Frame>)
    requires overlap <= |past|
    ensures |w| == overlap + |newer|
  {
    past[|past| - overlap..] + newer
  }

  /** The track before the window begins. */
  function Before(past: seq<Frame>, overlap: nat): (p: seq<Frame>)
    requires overlap <= |past|
    ensures |p| == |past| - overlap
  {
    past[..|past| - overlap]
  }

  /** Frame i lies in an unvoiced run that reaches back to the window's start. */
  predicate InLeadingRun(w: seq<Frame>, i: nat)
    requires i < |w|
  {
    Invalid(w[i]) && LastValid(w, i) < 0
  }

  /** A leading run of `run` frames is bridged from carry c. */
  predicate Fires(c: Carry, run: nat) {
    HavePrior(c) && c.age + run <= VOICED_GAP_MAX_FRAMES
  }

  /** Two carries draw the same line, in log pitch, to the voiced frame `to`
      that ends a leading run of `run` frames. */
  predicate SameLine(m: LogExp, c: Carry, d: Carry, to: real, run: nat) {
    (m.log(c.f0) - m.log(to)) * (run + d.age + 1) as real == (m.log(d.f0) - m.log(to)) * (run + c.age + 1) as real
  }

  /** Carry c leads to the same frame i as carry d would. */
  predicate Equivalent(m: LogExp, w: seq<Frame>, c: Carry, d: Carry, i: nat)
    requires i < |w| && BeforeVoiced(w, i)
  {
    var run := NextValid(w, i);
    InLeadingRun(w, i) ==>
      && (Fires(c, run) <==> Fires(d, run))
      && (Fires(c, run) ==> SameLine(m, c, d, w[run].value, run))
  }

  // ---------- when two carries give the same frame ----------

  /** The line through the virtual anchor, measured from the voiced end. */
  lemma BlendFromEnd(p: real, q: real, left: int, span: int)
    requires span > 0
    ensures Blend(p, q, Ratio(span - left, span)) == q + (p - q) * (left as real / span as real)
  {
    var r, l := Ratio(span - left, span), left as real / span as real;
    assert r + l == 1.0 by {
      assert r * span as real == (span - left) as real && l * span as real == left as real;
      assert (r + l) * span as real == span as real;
      UnitFactor(r + l, span as real);
    }
    assert Blend(p, q, r) == p * l + q * (1.0 - l);
    assert p * l + q * (1.0 - l) == q + (p - q) * l;
  }

  lemma UnitFactor(x: real, s: real)
    requires s > 0.0 && x * s == s
    ensures x == 1.0
  {
    assert (x - 1.0) * s == 0.0;
  }

  /** u l / s and v l / t agree exactly when u t and v s do. */
  lemma CrossMultiply(u: real, v: real, l: real, s: real, t: real)
    requires l > 0.0 && s > 0.0 && t > 0.0
    ensures u * (l / s) == v * (l / t) <==> u * t == v * s
  {
    var x, y := l / s, l / t;
    assert x * s == l && y * t == l;
    assert (u * x) * (s * t) == (u * t) * l by {
      Reorder(u, x, s, t, l);
    }
    assert (v * y) * (s * t) == (v * s) * l by {
      Reorder(v, y, t, s, l);
      assert s * t == t * s;
    }
    assert s * t > 0.0;
    Cancel(u * x, v * y, s * t);
    Cancel(u * t, v * s, l);
  }

  lemma Reorder(u: real, x: real, s: real, t: real, l: real)
    requires x * s == l
    ensures (u * x) * (s * t) == (u * t) * l
  {
    assert (u * x) * (s * t) == (u * t) * (x * s);
  }

  lemma Cancel(x: real, y: real, s: real)
    requires s > 0.0
    ensures x * s == y * s <==> x == y
  {
    if x * s == y * s {
      assert (x - y) * s == 0.0;
    }
  }

  lemma ExpInjective(m: LogExp, x: real, y: real)
    requires Lawful(m)
    ensures m.exp(x) == m.exp(y) <==> x == y
  {
  }

  lemma GlidesCoincide(m: LogExp, c: Carry, d: Carry, to: real, i: nat, run: nat)
    requires Lawful(m) && i < run && c.age >= 0 && d.age >= 0
    ensures Glide(m, c.f0, to, i + c.age + 1, run + c.age + 1) == Glide(m, d.f0, to, i + d.age + 1, run + d.age + 1)
        <==> SameLine(m, c, d, to, run)
  {
    hide Blend, Ratio;
    var left, s, t := run - i, run + c.age + 1, run + d.age + 1;
    var p, q, r := m.log(c.f0), m.log(d.f0), m.log(to);
    BlendFromEnd(p, r, left, s);
    BlendFromEnd(q, r, left, t);
    ExpInjective(m, Blend(p, r, Ratio(s - left, s)), Blend(q, r, Ratio(t - left, t)));
    CrossMultiply(p - r, q - r, left as real, s as real, t as real);
    hide Lawful;
  }

  /** Replacing the carry changes frame i exactly when the guard or the line of
      a leading bridge differs. */
  lemma CarryMatters(m: LogExp, w: seq<Frame>, c: Carry, d: Carry, i: nat)
    requires Lawful(m) && i < |w| && BeforeVoiced(w, i)
    ensures BridgedFrame(m, w, c, i) == BridgedFrame(m, w, d, i) <==> Equivalent(m, w, c, d, i)
  {
    var run := NextValid(w, i);
    if InLeadingRun(w, i) {
      GlidePositive(m, c.f0, w[run].value, i + c.age + 1, run + c.age + 1);
      GlidePositive(m, d.f0, w[run].value, i + d.age + 1, run + d.age + 1);
      if Fires(c, run) && Fires(d, run) {
        GlidesCoincide(m, c, d, w[run].value, i, run);
      }
    }
    hide Glide, SameLine, Lawful, LastValid, NextValid;
  }

  lemma GlidePositive(m: LogExp, lo: real, hi: real, step: int, span: int)
    requires Lawful(m)
    ensures span > 0 ==> Glide(m, lo, hi, step, span) > 0.0
  {
  }

  // ---------- one window against the whole track ----------

  lemma WindowOnTrack(past: seq<Frame>, overlap: nat, newer: seq<Frame>, rest: seq<Frame>)
    requires overlap <= |past|
    ensures past + newer + rest == Before(past, overlap) + WindowOf(past, overlap, newer) + rest
  {
    assert past == past[..|past| - overlap] + past[|past| - overlap..];
  }

  /** A window's frame agrees with the whole track exactly when the carry it was
      given is equivalent to the true carry of the track before the window. */
  lemma WindowFrameAgrees(m: LogExp, past: seq<Frame>, overlap: nat, newer: seq<Frame>, rest: seq<Frame>, c: Carry, i: nat)
    requires Lawful(m) && overlap <= |past| && i < overlap + |newer|
    requires BeforeVoiced(WindowOf(past, overlap, newer), i)
    ensures var w := WindowOf(past, overlap, newer);
      && Equivalent(m, w, c, TrueCarry(Before(past, overlap)), i)
      <==> BridgedFrame(m, w, c, i) == BridgedFrame(m, past + newer + rest, NO_CARRY, |past| - overlap + i)
  {
    hide *;
    var w, pre := WindowOf(past, overlap, newer), Before(past, overlap);
    WindowOnTrack(past, overlap, newer, rest);
    FrameAgrees(m, pre, w, rest, i);
    CarryMatters(m, w, c, TrueCarry(pre), i);
  }

  /** No carry reaches past the first frames of a window. */
  lemma LateFrameIsFree(m: LogExp, w: seq<Frame>, c: Carry, d: Carry, i: nat)
    requires i < |w| && BeforeVoiced(w, i) && i >= VOICED_GAP_MAX_FRAMES
    ensures Equivalent(m, w, c, d, i)
  {
    if InLeadingRun(w, i) {
      assert NextValid(w, i) > i;
    }
    hide SameLine;
  }

  /** Whatever the carry, a frame from the ninth of a window on agrees with the
      whole track. */
  lemma LateFramesAgree(m: LogExp, past: seq<Frame>, overlap: nat, newer: seq<Frame>, rest: seq<Frame>, c: Carry, i: nat)
    requires Lawful(m) && overlap <= |past| && VOICED_GAP_MAX_FRAMES <= i < overlap + |newer|
    requires BeforeVoiced(WindowOf(past, overlap, newer), i)
    ensures BridgedFrame(m, WindowOf(past, overlap, newer), c, i)
         == BridgedFrame(m, past + newer + rest, NO_CARRY, |past| - overlap + i)
  {
    hide *;
    LateFrameIsFree(m, WindowOf(past, overlap, newer), c, TrueCarry(Before(past, overlap)), i);
    WindowFrameAgrees(m, past, overlap, newer, rest, c, i);
  }

  // ---------- where the carried frame is ----------

  /** Index, within a window that overlaps by `overlap`, of a frame `age` frames
      before the past's end; negative when it lies before the window. */
  function CarriedIndex(overlap: nat, age: int): int {
    overlap - 1 - age
  }

  /** A true carry that fires although its frame is inside the window bridges
      the run from a frame that comes after it. */
  lemma CarriedFrameInside(past: seq<Frame>, overlap: nat, newer: seq<Frame>, i: nat)
    requires overlap <= |past| && i < overlap + |newer|
    requires var w := WindowOf(past, overlap, newer);
      BeforeVoiced(w, i) && InLeadingRun(w, i) && Fires(TrueCarry(past), NextValid(w, i))
    requires TrueCarry(past).age < overlap
    ensures var w := WindowOf(past, overlap, newer); var at := CarriedIndex(overlap, TrueCarry(past).age);
      i < NextValid(w, i) <= at < |w| && w[at] == Hz(TrueCarry(past).f0)
  {
    var w, at := WindowOf(past, overlap, newer), CarriedIndex(overlap, TrueCarry(past).age);
    var k := LastValid(past, |past|);
    assert w[at] == past[k];
    hide LastValid;
  }

  lemma TrueCarryBefore(past: seq<Frame>, overlap: nat)
    requires overlap <= |past| && TrueCarry(past).age >= overlap
    ensures TrueCarry(Before(past, overlap)) == Carry(TrueCarry(past).f0, TrueCarry(past).age - overlap)
  {
    var b, k := |past| - overlap, LastValid(past, |past|);
    LastValidIs(past[..b], b, k);
    hide LastValid;
  }

  lemma LogInjective(m: LogExp, x: real, y: real)
    requires Lawful(m) && x > 0.0 && y > 0.0
    ensures m.log(x) == m.log(y) <==> x == y
  {
    assert m.exp(m.log(x)) == x && m.exp(m.log(y)) == y;
  }

  lemma LinesFromOnePitch(m: LogExp, f0: real, to: real, run: nat, age: nat, overlap: nat)
    requires Lawful(m) && f0 > 0.0 && to > 0.0 && overlap <= age
    ensures SameLine(m, Carry(f0, age), Carry(f0, age - overlap), to, run) <==> overlap == 0 || f0 == to
  {
    LogInjective(m, f0, to);
    var d, s, t := m.log(f0) - m.log(to), (run + age + 1) as real, (run + (age - overlap) + 1) as real;
    assert s - t == overlap as real;
    assert d * s - d * t == d * overlap as real;
    if d * overlap as real == 0.0 && overlap > 0 {
      Cancel(d, 0.0, overlap as real);
    }
    hide Lawful;
  }

  /** When the carried frame does lie before the window, its age is too large by
      the overlap: the frame agrees exactly when there is no overlap, the gap is
      too long for the whole track as well, or it is short enough even by the
      wrong age and both ends have the same pitch. */
  lemma CarriedFrameOutside(m: LogExp, past: seq<Frame>, overlap: nat, newer: seq<Frame>, i: nat)
    requires Lawful(m) && overlap <= |past| && i < overlap + |newer| && TrueCarry(past).age >= overlap
    requires var w := WindowOf(past, overlap, newer); BeforeVoiced(w, i) && InLeadingRun(w, i)
    ensures var w := WindowOf(past, overlap, newer); var c := TrueCarry(past); var run := NextValid(w, i);
      Equivalent(m, w, c, TrueCarry(Before(past, overlap)), i) <==>
        || overlap == 0
        || c.age - overlap + run > VOICED_GAP_MAX_FRAMES
        || (c.age + run <= VOICED_GAP_MAX_FRAMES && c.f0 == w[run].value)
  {
    var w, c := WindowOf(past, overlap, newer), TrueCarry(past);
    var run := NextValid(w, i);
    TrueCarryBefore(past, overlap);
    assert run > i && w[run].value > 0.0 && c.f0 > 0.0;
    LinesFromOnePitch(m, c.f0, w[run].value, run, c.age, overlap);
    hide SameLine, Lawful, LastValid, NextValid;
  }

  // ---------- whole runs ----------

  /** The outputs of successive windows, each chunk arriving after the last. */
  function BridgeWindows(m: LogExp, past: seq<Frame>, overlap: nat, chunks: seq<seq<Frame>>, c: Carry): (r: seq<seq<real>>)
    requires overlap <= |past|
    ensures |r| == |chunks|
    ensures forall k :: 0 <= k < |r| ==> |r[k]| == overlap + |chunks[k]|
    decreases |chunks|
  {
    if chunks == [] then []
    else
      var first := Bridged(m, WindowOf(past, overlap, chunks[0]), c);
      [first] + BridgeWindows(m, past + chunks[0], overlap, chunks[1..], NextCarry(c, first))
  }

  /** The frames seen before chunk k. */
  function PastAt(past: seq<Frame>, chunks: seq<seq<Frame>>, k: nat): (p: seq<Frame>)
    requires k <= |chunks|
    ensures |p| >= |past|
  {
    past + Flatten(chunks[..k])
  }

  /** The carry the engine holds before window k. */
  function CarryAt(m: LogExp, past: seq<Frame>, overlap: nat, chunks: seq<seq<Frame>>, c: Carry, k: nat): Carry
    requires overlap <= |past| && k <= |chunks|
    decreases k
  {
    if k == 0 then c
    else CarryAt(m, past + chunks[0], overlap, chunks[1..], NextCarry(c, Bridged(m, WindowOf(past, overlap, chunks[0]), c)), k - 1)
  }

  lemma PastStep(past: seq<Frame>, chunks: seq<seq<Frame>>, k: nat)
    requires 0 < k <= |chunks|
    ensures PastAt(past + chunks[0], chunks[1..], k - 1) == PastAt(past, chunks, k)
  {
    hide Flatten;
    FlattenStep(chunks[..k]);
    assert chunks[..k][1..] == chunks[1..][..k - 1];
  }

  /** Window k of a run is bridged from the carry the engine holds by then. */
  lemma {:induction false} WindowAt(m: LogExp, past: seq<Frame>, overlap: nat, chunks: seq<seq<Frame>>, c: Carry, k: nat)
    requires overlap <= |past| && k < |chunks|
    ensures BridgeWindows(m, past, overlap, chunks, c)[k]
         == Bridged(m, WindowOf(PastAt(past, chunks, k), overlap, chunks[k]), CarryAt(m, past, overlap, chunks, c, k))
    decreases k
  {
    hide Bridged, NextCarry, WindowOf;
    if k == 0 {
      FlattenNone(chunks);
      assert PastAt(past, chunks, 0) == past;
    } else {
      PastStep(past, chunks, k);
      hide PastAt;
      WindowAt(m, past + chunks[0], overlap, chunks[1..], NextCarry(c, Bridged(m, WindowOf(past, overlap, chunks[0]), c)), k - 1);
    }
  }

  lemma {:induction false} TrackFrom(past: seq<Frame>, chunks: seq<seq<Frame>>, k: nat)
    requires k < |chunks|
    ensures past + Flatten(chunks) == PastAt(past, chunks, k) + chunks[k] + Flatten(chunks[k + 1..])
    decreases k
  {
    FlattenStep(chunks);
    if k == 0 {
      FlattenNone(chunks);
    } else {
      TrackFrom(past + chunks[0], chunks[1..], k - 1);
      PastStep(past, chunks, k);
      assert chunks[1..][k..] == chunks[k + 1..];
      assert past + (chunks[0] + Flatten(chunks[1..])) == (past + chunks[0]) + Flatten(chunks[1..]);
    }
    hide Flatten;
  }

  /** For every run of windows, any overlap and any carry at the start: a frame
      that a later frame of its window voices agrees with one pass over the whole
      track exactly when the engine's carry is equivalent to the true carry of
      the track before that window; any other frame stays as cleaned. */
  lemma WindowsAgree(m: LogExp, past: seq<Frame>, overlap: nat, chunks: seq<seq<Frame>>, c: Carry, k: nat, i: nat)
    requires Lawful(m) && overlap <= |past| && k < |chunks| && i < overlap + |chunks[k]|
    ensures var p := PastAt(past, chunks, k); var w := WindowOf(p, overlap, chunks[k]);
      var out, whole := BridgeWindows(m, past, overlap, chunks, c)[k][i], Bridged(m, past + Flatten(chunks), NO_CARRY);
      && |p| - overlap + i < |whole|
      && (BeforeVoiced(w, i) ==>
            (Equivalent(m, w, CarryAt(m, past, overlap, chunks, c, k), TrueCarry(Before(p, overlap)), i)
             <==> out == whole[|p| - overlap + i]))
      && (!BeforeVoiced(w, i) ==> out == Clean(w[i]) <= 0.0)
  {
    hide *;
    WindowAt(m, past, overlap, chunks, c, k);
    TrackFrom(past, chunks, k);
    var p, rest := PastAt(past, chunks, k), Flatten(chunks[k + 1..]);
    var w, held := WindowOf(p, overlap, chunks[k]), CarryAt(m, past, overlap, chunks, c, k);
    BridgedAt(m, w, held, i);
    BridgedAt(m, p + chunks[k] + rest, NO_CARRY, |p| - overlap + i);
    if BeforeVoiced(w, i) {
      WindowFrameAgrees(m, p, overlap, chunks[k], rest, held, i);
    } else {
      UnvoicedFrom(w, i);
      UnvoicedEndKept(m, w, held, i);
    }
  }

  lemma BridgedAt(m: LogExp, s: seq<Frame>, c: Carry, i: nat)
    requires i < |s|
    ensures |Bridged(m, s, c)| == |s| && Bridged(m, s, c)[i] == BridgedFrame(m, s, c, i)
  {
  }

  lemma UnvoicedFrom(w: seq<Frame>, i: nat)
    requires i < |w| && !BeforeVoiced(w, i)
    ensures forall j :: i <= j < |w| ==> Invalid(w[j])
  {
  }

  /** Once the overlap is as long as the longest gap, every new frame of every
      window agrees with the whole track, whatever the carry: the carry can only
      touch frames that repeat the past. */
  lemma NewFramesAgree(m: LogExp, past: seq<Frame>, overlap: nat, chunks: seq<seq<Frame>>, c: Carry, k: nat, j: nat)
    requires Lawful(m) && VOICED_GAP_MAX_FRAMES <= overlap <= |past| && k < |chunks| && j < |chunks[k]|
    requires BeforeVoiced(chunks[k], j)
    ensures var p := PastAt(past, chunks, k); var whole := Bridged(m, past + Flatten(chunks), NO_CARRY);
      && |p| + j < |whole|
      && BridgeWindows(m, past, overlap, chunks, c)[k][overlap + j] == whole[|p| + j]
  {
    hide *;
    var p := PastAt(past, chunks, k);
    var w := WindowOf(p, overlap, chunks[k]);
    VoicedInWindow(p, overlap, chunks[k], j);
    LateFrameIsFree(m, w, CarryAt(m, past, overlap, chunks, c, k), TrueCarry(Before(p, overlap)), overlap + j);
    WindowsAgree(m, past, overlap, chunks, c, k, overlap + j);
  }

  lemma VoicedInWindow(past: seq<Frame>, overlap: nat, newer: seq<Frame>, j: nat)
    requires overlap <= |past| && j < |newer| && BeforeVoiced(newer, j)
    ensures BeforeVoiced(WindowOf(past, overlap, newer), overlap + j)
  {
    var w := WindowOf(past, overlap, newer);
    NextValidIs(w, overlap + j, overlap + NextValid(newer, j));
  }

  // ---------- how the carry drifts ----------

  /** How many windows without any voiced frame come right before window k. */
  function SilentBefore(past: seq<Frame>, overlap: nat, chunks: seq<seq<Frame>>, k: nat): nat
    requires overlap <= |past| && k <= |chunks|
  {
    if k == 0 then 0
    else
      var w := WindowOf(PastAt(past, chunks, k - 1), overlap, chunks[k - 1]);
      if LastValid(w, |w|) >= 0 then 0 else SilentBefore(past, overlap, chunks, k - 1) + 1
  }

  /** The true carry, its age too large by `extra`. */
  function Aged(c: Carry, extra: nat): Carry {
    if c.age < 0 then c else Carry(c.f0, c.age + extra)
  }

  /** One window: a voiced frame makes the carry true again, a window without one
      ages it by the whole window, repeated frames included. */
  lemma CarryDriftsOnce(m: LogExp, past: seq<Frame>, overlap: nat, newer: seq<Frame>, extra: nat)
    requires overlap <= |past|
    ensures var w := WindowOf(past, overlap, newer);
      NextCarry(Aged(TrueCarry(past), extra), Bridged(m, w, Aged(TrueCarry(past), extra)))
        == Aged(TrueCarry(past + newer), if LastValid(w, |w|) >= 0 then 0 else extra + overlap)
  {
    hide *;
    var w, pre, tail := WindowOf(past, overlap, newer), Before(past, overlap), past[|past| - overlap..];
    NextCarryIs(m, w, Aged(TrueCarry(past), extra));
    assert past == pre + tail && past + newer == pre + w by {
      BeforeIs(past, overlap, newer);
    }
    TrueCarryOfConcat(pre, w);
    if LastValid(w, |w|) < 0 {
      SilentStart(w, overlap);
      BeforeIs(past, overlap, newer);
      TrueCarryOfConcat(pre, tail);
      AgedTwice(TrueCarry(pre), overlap, extra, |w|);
    } else {
      AgedBy0(TrueCarry(past + newer));
    }
  }

  lemma BeforeIs(past: seq<Frame>, overlap: nat, newer: seq<Frame>)
    requires overlap <= |past|
    ensures past == Before(past, overlap) + past[|past| - overlap..]
    ensures past + newer == Before(past, overlap) + WindowOf(past, overlap, newer)
    ensures WindowOf(past, overlap, newer)[..overlap] == past[|past| - overlap..]
  {
  }

  lemma NextCarryIs(m: LogExp, w: seq<Frame>, c: Carry)
    ensures var k := LastValid(w, |w|);
      NextCarry(c, Bridged(m, w, c)) == if k >= 0 then Carry(w[k].value, |w| - 1 - k) else Aged(c, |w|)
  {
    LastVoicedKept(m, w, c);
    hide BridgedFrame, Bridged, LastPositive, LastValid;
  }

  lemma TrueCarryOfConcat(p: seq<Frame>, w: seq<Frame>)
    ensures var k := LastValid(w, |w|);
      TrueCarry(p + w) == if k >= 0 then Carry(w[k].value, |w| - 1 - k) else Aged(TrueCarry(p), |w|)
  {
    hide TrueCarry, LastValid, Invalid;
    LastValidOfConcat(p, w, |w|);
    TrueCarryIs(p + w);
    TrueCarryIs(p);
  }

  lemma TrueCarryIs(s: seq<Frame>)
    ensures var k := LastValid(s, |s|);
      TrueCarry(s) == if k >= 0 then Carry(s[k].value, |s| - 1 - k) else NO_CARRY
  {
  }

  lemma SilentStart(w: seq<Frame>, n: nat)
    requires n <= |w| && LastValid(w, |w|) < 0
    ensures LastValid(w[..n], n) < 0
  {
    LastValidIs(w[..n], n, -1);
  }

  lemma AgedTwice(c: Carry, a: nat, b: nat, n: nat)
    ensures Aged(Aged(Aged(c, a), b), n) == Aged(Aged(c, n), b + a)
  {
  }

  lemma AgedBy0(c: Carry)
    ensures Aged(c, 0) == c
  {
  }

  /** The carry stays true through a window exactly when nothing is repeated, the
      window has a voiced frame, or there never was one. */
  lemma CarryStaysTrueExactly(m: LogExp, past: seq<Frame>, overlap: nat, newer: seq<Frame>)
    requires overlap <= |past|
    ensures var w := WindowOf(past, overlap, newer);
      && (overlap == 0 || LastValid(w, |w|) >= 0 || TrueCarry(past).age < 0)
      <==> NextCarry(TrueCarry(past), Bridged(m, w, TrueCarry(past))) == TrueCarry(past + newer)
  {
    hide *;
    var w := WindowOf(past, overlap, newer);
    CarryDriftsOnce(m, past, overlap, newer, 0);
    AgedBy0(TrueCarry(past));
    AgedChanges(TrueCarry(past + newer), if LastValid(w, |w|) >= 0 then 0 else overlap);
    if LastValid(w, |w|) < 0 {
      KnownStaysKnown(past, overlap, newer);
    }
  }

  lemma AgedChanges(c: Carry, extra: nat)
    ensures Aged(c, extra) == c <==> c.age < 0 || extra == 0
  {
  }

  lemma KnownStaysKnown(past: seq<Frame>, overlap: nat, newer: seq<Frame>)
    requires overlap <= |past|
    requires var w := WindowOf(past, overlap, newer); LastValid(w, |w|) < 0
    ensures TrueCarry(past + newer).age < 0 <==> TrueCarry(past).age < 0
  {
    var w := WindowOf(past, overlap, newer);
    BeforeIs(past, overlap, newer);
    SilentStart(w, overlap);
    TrueCarryOfConcat(Before(past, overlap), w);
    TrueCarryOfConcat(Before(past, overlap), past[|past| - overlap..]);
    TrueCarryKnown(Before(past, overlap));
    hide TrueCarry, LastValid, WindowOf, Before;
  }

  lemma TrueCarryKnown(p: seq<Frame>)
    ensures TrueCarry(p).age >= -1
  {
  }

  /** The carry before window k of a run that starts in silence: the last voiced
      pitch, with its true age plus the overlap once for every window without a
      voiced frame since. */
  lemma {:induction false} CarryAtIs(m: LogExp, past: seq<Frame>, overlap: nat, chunks: seq<seq<Frame>>, k: nat)
    requires overlap <= |past| && k <= |chunks| && TrueCarry(past) == NO_CARRY
    ensures CarryAt(m, past, overlap, chunks, NO_CARRY, k)
         == Aged(TrueCarry(PastAt(past, chunks, k)), overlap * SilentBefore(past, overlap, chunks, k))
  {
    hide NextCarry, Bridged, TrueCarry, WindowOf, LastValid;
    if k == 0 {
      FlattenNone(chunks);
      assert PastAt(past, chunks, 0) == past;
    } else {
      CarryAtIs(m, past, overlap, chunks, k - 1);
      CarryAtStep(m, past, overlap, chunks, NO_CARRY, k);
      var n := SilentBefore(past, overlap, chunks, k - 1);
      CarryDriftsOnce(m, PastAt(past, chunks, k - 1), overlap, chunks[k - 1], overlap * n);
      TimesOneMore(overlap, n);
      PastAppend(past, chunks, k);
      hide PastAt;
    }
  }

  lemma TimesOneMore(o: nat, n: nat)
    ensures o * (n + 1) == o * n + o && o * 0 == 0 && o * n >= 0
  {
  }

  lemma {:induction false} PastAppend(past: seq<Frame>, chunks: seq<seq<Frame>>, k: nat)
    requires 0 < k <= |chunks|
    ensures PastAt(past, chunks, k) == PastAt(past, chunks, k - 1) + chunks[k - 1]
    decreases k
  {
    if k == 1 {
      FlattenStep(chunks[..1]);
      FlattenNone(chunks[..1][1..]);
      assert chunks[..1][1..] == [] && chunks[..0] == [];
    } else {
      PastStep(past, chunks, k);
      PastStep(past, chunks, k - 1);
      PastAppend(past + chunks[0], chunks[1..], k - 1);
    }
    hide Flatten;
  }

  lemma {:induction false} CarryAtStep(m: LogExp, past: seq<Frame>, overlap: nat, chunks: seq<seq<Frame>>, c: Carry, k: nat)
    requires overlap <= |past| && 0 < k <= |chunks|
    ensures var before := CarryAt(m, past, overlap, chunks, c, k - 1);
      CarryAt(m, past, overlap, chunks, c, k)
        == NextCarry(before, Bridged(m, WindowOf(PastAt(past, chunks, k - 1), overlap, chunks[k - 1]), before))
    decreases k
  {
    hide Bridged, NextCarry, WindowOf;
    if k == 1 {
      FlattenNone(chunks);
      assert PastAt(past, chunks, 0) == past;
    } else {
      PastStep(past, chunks, k - 1);
      hide PastAt;
      CarryAtStep(m, past + chunks[0], overlap, chunks[1..],
                  NextCarry(c, Bridged(m, WindowOf(past, overlap, chunks[0]), c)), k - 1);
    }
  }

  lemma WideFires(c: Carry, overlap: nat, n: nat, run: nat)
    requires overlap >= VOICED_GAP_MAX_FRAMES && Fires(Aged(c, overlap * n), run)
    ensures n == 0 && Aged(c, overlap * n) == c && 0 <= c.age < overlap
  {
    if n > 0 {
      TimesOneMore(overlap, n - 1);
    }
  }

  /** With an overlap of at least the longest gap, the engine's carry never fires
      for the frame it is meant for, in any window of a run that starts in
      silence: whenever it fires, its frame is inside the window, after the run
      it bridges. */
  lemma WideOverlapNeverReachesOut(m: LogExp, past: seq<Frame>, overlap: nat, chunks: seq<seq<Frame>>, k: nat, i: nat)
    requires VOICED_GAP_MAX_FRAMES <= overlap <= |past| && k < |chunks| && TrueCarry(past) == NO_CARRY
    requires i < overlap + |chunks[k]|
    requires var w := WindowOf(PastAt(past, chunks, k), overlap, chunks[k]);
      && BeforeVoiced(w, i) && InLeadingRun(w, i)
      && Fires(CarryAt(m, past, overlap, chunks, NO_CARRY, k), NextValid(w, i))
    ensures var w := WindowOf(PastAt(past, chunks, k), overlap, chunks[k]);
      var c := CarryAt(m, past, overlap, chunks, NO_CARRY, k); var at := CarriedIndex(overlap, c.age);
      && c == TrueCarry(PastAt(past, chunks, k))
      && i < NextValid(w, i) <= at < |w| && w[at] == Hz(c.f0)
  {
    hide *;
    var p, n := PastAt(past, chunks, k), SilentBefore(past, overlap, chunks, k);
    var w := WindowOf(p, overlap, chunks[k]);
    CarryAtIs(m, past, overlap, chunks, k);
    WideFires(TrueCarry(p), overlap, n, NextValid(w, i));
    CarriedFrameInside(p, overlap, chunks[k], i);
  }

  // ---------- a window the carry misleads ----------

  /** Two windows over two frames of silence, a gap and a steady pitch: the second
      repeats the gap, the carry fires for it although its frame is inside, and
      bridges what one pass leaves silent. */
  lemma CarryMisleads(m: LogExp)
    requires Lawful(m)
    ensures var past, chunks := [NaN, NaN], [[NaN, Hz(100.0)], [Hz(100.0)]];
      && BridgeWindows(m, past, 2, chunks, NO_CARRY)[1][0] > 0.0
      && Bridged(m, past + Flatten(chunks), NO_CARRY)[2] == 0.0
  {
    hide *;
    var past, chunks := [NaN, NaN], [[NaN, Hz(100.0)], [Hz(100.0)]];
    MisleadingTrack(past, chunks);
    MisleadingCarry(m, past, chunks);
    WindowAt(m, past, 2, chunks, NO_CARRY, 1);
    LeadingFrameFires(m, WindowOf(PastAt(past, chunks, 1), 2, chunks[1]));
    TrackStaysSilent(m, past + Flatten(chunks));
  }

  lemma MisleadingTrack(past: seq<Frame>, chunks: seq<seq<Frame>>)
    requires past == [NaN, NaN] && chunks == [[NaN, Hz(100.0)], [Hz(100.0)]]
    ensures PastAt(past, chunks, 0) == past
    ensures WindowOf(past, 2, chunks[0]) == PastAt(past, chunks, 1) == [NaN, NaN, NaN, Hz(100.0)]
    ensures WindowOf(PastAt(past, chunks, 1), 2, chunks[1]) == [NaN, Hz(100.0), Hz(100.0)]
    ensures past + Flatten(chunks) == [NaN, NaN, NaN, Hz(100.0), Hz(100.0)]
  {
    hide *;
    TwoChunks(past, chunks);
    WindowAfter([], past, chunks[0]);
    WindowAfter(past, chunks[0], chunks[1]);
    assert [] + past == past;
  }

  lemma TwoChunks(past: seq<Frame>, chunks: seq<seq<Frame>>)
    requires |chunks| == 2
    ensures PastAt(past, chunks, 0) == past
    ensures PastAt(past, chunks, 1) == past + chunks[0]
    ensures past + Flatten(chunks) == past + chunks[0] + chunks[1]
  {
    hide Flatten;
    FlattenNone(chunks);
    FlattenTwo(chunks);
  }

  lemma WindowAfter(older: seq<Frame>, repeated: seq<Frame>, newer: seq<Frame>)
    ensures WindowOf(older + repeated, |repeated|, newer) == repeated + newer
  {
  }

  /** The carry before the second window: age 0, as the gap ends on its frame. */
  lemma MisleadingCarry(m: LogExp, past: seq<Frame>, chunks: seq<seq<Frame>>)
    requires past == [NaN, NaN] && chunks == [[NaN, Hz(100.0)], [Hz(100.0)]]
    ensures CarryAt(m, past, 2, chunks, NO_CARRY, 1) == Carry(100.0, 0)
  {
    var p := [NaN, NaN, NaN, Hz(100.0)];
    MisleadingTrack(past, chunks);
    CarryAtStep(m, past, 2, chunks, NO_CARRY, 1);
    LastValidIs(p, 4, 3);
    LastVoicedKept(m, p, NO_CARRY);
    hide Bridged, CarryAt, PastAt, WindowOf, Flatten, LastValid, LastPositive;
  }

  lemma FlattenTwo(chunks: seq<seq<Frame>>)
    requires |chunks| == 2
    ensures Flatten(chunks) == chunks[0] + chunks[1] && Flatten(chunks[..1]) == chunks[0]
  {
    FlattenStep(chunks);
    FlattenStep(chunks[1..]);
    FlattenStep(chunks[..1]);
    assert chunks[1..][1..] == [] && chunks[..1][1..] == [];
  }

  lemma LeadingFrameFires(m: LogExp, w: seq<Frame>)
    requires Lawful(m) && |w| >= 2 && w[0] == NaN && w[1] == Hz(100.0)
    ensures Bridged(m, w, Carry(100.0, 0))[0] > 0.0
  {
    NextValidIs(w, 0, 1);
    LastValidIs(w, 0, -1);
  }

  lemma TrackStaysSilent(m: LogExp, t: seq<Frame>)
    requires |t| == 5 && t[0] == t[1] == t[2] == NaN && t[3] == Hz(100.0)
    ensures Bridged(m, t, NO_CARRY)[2] == 0.0
  {
    LastValidIs(t, 2, -1);
    NextValidIs(t, 2, 3);
  }
}
