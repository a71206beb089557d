// Mapping pitch in Hz to the 255 coarse bins of the voice model, right-aligned
// to the feature frames.
module PitchCoarse {
  import opened Samples
  import opened Pitch

  const F0_MIN: real := 50.0
  const F0_MAX: real := 1100.0

  function Clamp(x: real): real {
    if x < 0.0 then 0.0 else x
  }

  function Mel(m: LogExp, hz: real): real {
    1127.0 * m.log(1.0 + hz / 700.0)
  }

  function Clip(x: real): real {
    if x < 1.0 then 1.0 else if x > 255.0 then 255.0 else x
  }

  /** Where a positive mel value falls on the bin axis, before clipping. */
  function Scaled(mel: real, low: real, high: real): real
    requires low < high
  {
    (mel - low) * 254.0 / (high - low) + 1.0
  }

  lemma MelLaws(m: LogExp)
    requires Lawful(m)
    ensures Mel(m, 0.0) == 0.0 && Mel(m, F0_MIN) < Mel(m, F0_MAX)
    ensures forall x: real, y: real :: 0.0 <= x < y ==> Mel(m, x) < Mel(m, y)
  {
    assert m.log(1.0) == m.log(m.exp(0.0)) == 0.0;
    forall x: real, y: real | 0.0 <= x < y ensures Mel(m, x) < Mel(m, y) {
      LogMonotone(m, 1.0 + x / 700.0, 1.0 + y / 700.0);
    }
  }

  /** Only positive mel values are rescaled. */
  function Masked(mel: real, low: real, high: real): real
    requires low < high
  {
    if mel > 0.0 then Scaled(mel, low, high) else mel
  }

  function Bin(m: LogExp, hz: real): int
    requires Mel(m, F0_MIN) < Mel(m, F0_MAX)
  {
    Round(Clip(Masked(Mel(m, hz), Mel(m, F0_MIN), Mel(m, F0_MAX))))
  }

  lemma ScaledMonotone(x: real, y: real, low: real, high: real)
    requires low < high && x <= y
    ensures Scaled(x, low, high) <= Scaled(y, low, high)
  {
    var w := high - low;
    assert (x - low) * 254.0 <= (y - low) * 254.0;
    Quotient((x - low) * 254.0, (y - low) * 254.0, w);
  }

  lemma Quotient(p: real, q: real, w: real)
    requires p <= q && w > 0.0
    ensures p / w <= q / w
  {
  }

  lemma ScaledEnds(low: real, high: real)
    requires low < high
    ensures Scaled(low, low, high) == 1.0 && Scaled(high, low, high) == 255.0
  {
    var w := high - low;
    assert w * 254.0 / w == 254.0;
  }

  lemma BinInRange(m: LogExp, hz: real)
    requires Lawful(m)
    ensures Mel(m, F0_MIN) < Mel(m, F0_MAX)
    ensures 1 <= Bin(m, hz) <= 255
  {
    MelLaws(m);
    hide Round, Mel, Scaled;
    RoundKeepsIntegers(1);
    RoundKeepsIntegers(255);
    var x := Clip(Masked(Mel(m, hz), Mel(m, F0_MIN), Mel(m, F0_MAX)));
    RoundIsMonotone(1.0, x);
    RoundIsMonotone(x, 255.0);
  }

  /** Higher pitch, higher or equal bin. */
  lemma BinMonotone(m: LogExp, x: real, y: real)
    requires Lawful(m) && 0.0 <= x <= y
    ensures Mel(m, F0_MIN) < Mel(m, F0_MAX)
    ensures Bin(m, x) <= Bin(m, y)
  {
    MelLaws(m);
    BinInRange(m, y);
    hide Round, Mel, Scaled;
    var low, high := Mel(m, F0_MIN), Mel(m, F0_MAX);
    var a, b := Mel(m, x), Mel(m, y);
    if x == 0.0 {
      RoundKeepsIntegers(1);
    } else {
      assert 0.0 < a <= b;
      ScaledMonotone(a, b, low, high);
      RoundIsMonotone(Clip(Scaled(a, low, high)), Clip(Scaled(b, low, high)));
    }
  }

  /** Unvoiced frames and everything up to 50 Hz share bin 1; everything from
      1100 Hz on has bin 255. */
  lemma BinEnds(m: LogExp, hz: real)
    requires Lawful(m) && hz >= 0.0
    ensures Mel(m, F0_MIN) < Mel(m, F0_MAX)
    ensures hz <= F0_MIN ==> Bin(m, hz) == 1
    ensures hz >= F0_MAX ==> Bin(m, hz) == 255
  {
    MelLaws(m);
    BinInRange(m, hz);
    var low, high := Mel(m, F0_MIN), Mel(m, F0_MAX);
    ScaledEnds(low, high);
    RoundKeepsIntegers(1);
    RoundKeepsIntegers(255);
    hide Round, Mel, Scaled;
    if hz <= F0_MIN {
      BinMonotone(m, hz, F0_MIN);
    } else if hz >= F0_MAX {
      BinMonotone(m, F0_MAX, hz);
    }
  }

  /** The bin of a positive pitch: how far its mel value lies between those of 50
      and 1100 Hz, spread over the bins 1 to 255, clipped there, and rounded. */
  lemma BinIs(m: LogExp, hz: real)
    requires Lawful(m) && hz > 0.0
    ensures Mel(m, F0_MIN) < Mel(m, F0_MAX)
    ensures var low, high := m.log(1.0 + 50.0 / 700.0), m.log(1.0 + 1100.0 / 700.0);
      && low < high
      && var x := (m.log(1.0 + hz / 700.0) - low) * 254.0 / (high - low) + 1.0;
         IsRounded(Bin(m, hz), if x < 1.0 then 1.0 else if x > 255.0 then 255.0 else x)
  {
    MelLaws(m);
    LogMonotone(m, 1.0 + 50.0 / 700.0, 1.0 + 1100.0 / 700.0);
    var a, low, high := m.log(1.0 + hz / 700.0), m.log(1.0 + 50.0 / 700.0), m.log(1.0 + 1100.0 / 700.0);
    ScaledCancels(a, low, high);
    assert Mel(m, hz) > Mel(m, 0.0) == 0.0;
    RoundIsNear(Clip(Scaled(Mel(m, hz), Mel(m, F0_MIN), Mel(m, F0_MAX))));
    hide Round, IsRounded, Lawful, Scaled;
  }

  lemma ScaledCancels(a: real, low: real, high: real)
    requires low < high
    ensures Scaled(1127.0 * a, 1127.0 * low, 1127.0 * high) == (a - low) * 254.0 / (high - low) + 1.0
  {
    var p, w := (a - low) * 254.0, high - low;
    assert (1127.0 * a - 1127.0 * low) * 254.0 == 1127.0 * p;
    assert 1127.0 * high - 1127.0 * low == 1127.0 * w;
    FactorCancels(p, w);
  }

  lemma FactorCancels(p: real, w: real)
    requires w > 0.0
    ensures (1127.0 * p) / (1127.0 * w) == p / w
  {
    var q := p / w;
    assert q * w == p;
    assert q * (1127.0 * w) == 1127.0 * p;
    QuotientIs(q, 1127.0 * p, 1127.0 * w);
  }

  lemma QuotientIs(q: real, p: real, w: real)
    requires w > 0.0 && q * w == p
    ensures p / w == q
  {
  }

  ghost predicate SomePositive(s: seq<real>) {
    exists i :: 0 <= i < |s| && s[i] > 0.0
  }

  /** The aligned track: the last frames, clamped at 0, zero-padded in front. */
  function Aligned(s: seq<real>, len: nat): (r: seq<real>)
    ensures |r| == len
  {
    seq(len, i requires 0 <= i < len => if i + |s| < len then 0.0 else Clamp(s[i + |s| - len]))
  }

  /** Frame i of the aligned track, in terms of the track itself. */
  lemma AlignedIs(s: seq<real>, len: nat)
    ensures forall i :: 0 <= i < len ==>
      Aligned(s, len)[i] == if i + |s| < len then 0.0 else var f := s[i + |s| - len]; if f > 0.0 then f else 0.0
  {
    forall i | 0 <= i < len
      ensures Aligned(s, len)[i] == if i + |s| < len then 0.0 else var f := s[i + |s| - len]; if f > 0.0 then f else 0.0
    {
      assert Aligned(s, len)[i] == if i + |s| < len then 0.0 else Clamp(s[i + |s| - len]);
    }
  }

  lemma SilenceAligned(s: seq<real>, len: nat)
    requires forall i :: 0 <= i < |s| ==> Clamp(s[i]) == 0.0
    ensures !SomePositive(s) && Aligned(s, len) == seq(len, i => 0.0)
  {
    assert forall i :: 0 <= i < |s| ==> s[i] <= 0.0 by {
      forall i | 0 <= i < |s| ensures s[i] <= 0.0 {
        assert Clamp(s[i]) == 0.0;
      }
    }
  }

  method Maximum(s: seq<real>) returns (r: real)
    requires s != []
    ensures r in s && forall i :: 0 <= i < |s| ==> s[i] <= r
  {
    r := s[0];
    for k := 1 to |s|
      invariant r in s && forall i :: 0 <= i < k ==> s[i] <= r
    {
      if s[k] > r { r := s[k]; }
    }
  }

  method ToPitchCoarse(m: LogExp, pitchf: seq<real>, targetLen: nat) returns (bins: seq<int>, pitch: seq<real>)
    requires Lawful(m) && targetLen >= 1
    ensures |bins| == targetLen && pitch == Aligned(pitchf, targetLen)
    ensures forall i :: 0 <= i < targetLen ==>
      pitch[i] == if i + |pitchf| < targetLen then 0.0
                  else var f := pitchf[i + |pitchf| - targetLen]; if f > 0.0 then f else 0.0
    ensures !SomePositive(pitchf) ==> forall i :: 0 <= i < targetLen ==> bins[i] == 0
    ensures Mel(m, F0_MIN) < Mel(m, F0_MAX)
    ensures SomePositive(pitchf) ==> forall i :: 0 <= i < targetLen ==> bins[i] == Bin(m, pitch[i])
  {
    MelLaws(m);
    hide Mel, Lawful, Bin, SomePositive, Aligned;
    AlignedIs(pitchf, targetLen);
    if |pitchf| == 0 {
      SilenceAligned(pitchf, targetLen);
      return seq(targetLen, i => 0), seq(targetLen, i => 0.0);
    }
    var clamped := ClampAll(pitchf);
    var top := Maximum(clamped);
    PeakShows(pitchf, clamped, top);
    if top == 0.0 {
      SilenceAligned(pitchf, targetLen);
      return seq(targetLen, i => 0), seq(targetLen, i => 0.0);
    }
    pitch := AlignTail(pitchf, clamped, targetLen);
    bins := ToBins(m, pitch);
  }

  function ClampAll(s: seq<real>): (r: seq<real>)
    ensures |r| == |s| && forall i :: 0 <= i < |s| ==> r[i] == Clamp(s[i])
  {
    seq(|s|, i requires 0 <= i < |s| => Clamp(s[i]))
  }

  lemma PeakShows(s: seq<real>, clamped: seq<real>, top: real)
    requires clamped == ClampAll(s) && top in clamped && forall i :: 0 <= i < |s| ==> clamped[i] <= top
    ensures top == 0.0 ==> forall i :: 0 <= i < |s| ==> Clamp(s[i]) == 0.0
    ensures top != 0.0 ==> SomePositive(s)
  {
    if top != 0.0 {
      var i :| 0 <= i < |clamped| && clamped[i] == top;
      assert s[i] > 0.0;
    } else {
      forall i | 0 <= i < |s| ensures Clamp(s[i]) == 0.0 {
        assert clamped[i] <= top;
      }
    }
  }

  method AlignTail(pitchf: seq<real>, clamped: seq<real>, targetLen: nat) returns (r: seq<real>)
    requires clamped == ClampAll(pitchf)
    ensures r == Aligned(pitchf, targetLen)
  {
    var track := new real[targetLen](i => 0.0);
    var n := if |pitchf| < targetLen then |pitchf| else targetLen;
    FillTail(track, clamped, n);
    r := track[..];
  }

  /** `track[-n:] = clamped[-n:]` */
  method FillTail(track: array<real>, s: seq<real>, n: nat)
    requires n <= |s| && n <= track.Length
    modifies track
    ensures forall i :: 0 <= i < track.Length ==>
      track[i] == if i + n < track.Length then old(track[i]) else s[i + |s| - track.Length]
  {
    var len := track.Length;
    for k := len - n to len
      invariant forall i :: 0 <= i < len ==>
        track[i] == if i + n < len || i >= k then old(track[i]) else s[i + |s| - len]
    {
      track[k] := s[k + |s| - len];
    }
  }

  /** The masked rescaling, the clip and the rounding. */
  method ToBins(m: LogExp, pitch: seq<real>) returns (bins: seq<int>)
    requires Mel(m, F0_MIN) < Mel(m, F0_MAX)
    ensures |bins| == |pitch| && forall i :: 0 <= i < |pitch| ==> bins[i] == Bin(m, pitch[i])
  {
    var low, high := Mel(m, F0_MIN), Mel(m, F0_MAX);
    var f0Mel := new real[|pitch|](i requires 0 <= i < |pitch| => Mel(m, pitch[i]));
    for k := 0 to |pitch|
      invariant forall i :: 0 <= i < k ==> f0Mel[i] == Masked(Mel(m, pitch[i]), low, high)
      invariant forall i :: k <= i < |pitch| ==> f0Mel[i] == Mel(m, pitch[i])
    {
      if f0Mel[k] > 0.0 {
        f0Mel[k] := Scaled(f0Mel[k], low, high);
      }
    }
    bins := [];
    for k := 0 to |pitch|
      invariant |bins| == k && forall i :: 0 <= i < k ==> bins[i] == Bin(m, pitch[i])
    {
      bins := bins + [Round(Clip(f0Mel[k]))];
    }
  }

  /** A frame that bridging left invalid reaches the voice model as pitch 0,
      even a negative one. */
  lemma UnbridgedIsSilent(m: LogExp, s: seq<Frame>, c: Carry, i: nat, len: nat)
    requires Lawful(m) && i < |s| <= len + i && Invalid(s[i]) && !InGap(s, c, i)
    ensures Aligned(Bridged(m, s, c), len)[len - |s| + i] == 0.0
  {
    FrameOutcome(m, s, c, i);
    hide BridgedFrame;
    assert Aligned(Bridged(m, s, c), len)[len - |s| + i] == Clamp(Bridged(m, s, c)[i]);
  }
}
