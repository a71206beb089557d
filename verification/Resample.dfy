// The stateful output resampler: its cold fade-in, spread over however many
// blocks the filter emits, and its finalised state after a flush.
module Resample {
  import opened Samples

  /** Weight of output sample g (counted from the stream's start). */
  function FadeWeight(g: nat, total: nat): real
    requires g < total
  {
    g as real / total as real
  }

  function FadedSample(x: real, g: nat, total: nat): real {
    if g < total then x * FadeWeight(g, total) else x
  }

  /** One ramp over a block that starts at output sample `from`. */
  function Faded(block: seq<real>, from: nat, total: nat): (r: seq<real>)
    ensures |r| == |block| && forall i :: 0 <= i < |r| ==> r[i] == FadedSample(block[i], from + i, total)
  {
    seq(|block|, i requires 0 <= i < |block| => FadedSample(block[i], from + i, total))
  }

  function Consumed(done: nat, emitted: nat, total: nat): nat {
    if done + emitted < total then done + emitted else total
  }

  /** Element k of numpy's linspace over [start, stop) in n steps. */
  function Linspace(start: real, stop: real, n: nat, k: nat): real
    requires k < n
  {
    start + k as real * ((stop - start) / n as real)
  }

  lemma LinspaceIsFade(done: nat, n: nat, total: nat, k: nat)
    requires k < n && done + n <= total
    ensures Linspace(done as real / total as real, (done + n) as real / total as real, n, k) == FadeWeight(done + k, total)
  {
    var t := total as real;
    var step := ((done + n) as real / t - done as real / t) / n as real;
    assert step * t == 1.0 by {
      assert ((done + n) as real / t - done as real / t) * t == n as real;
    }
    assert (k as real * step) * t == k as real;
    assert (done as real / t + k as real * step) * t == done as real + k as real;
    DivideBack(done as real / t + k as real * step, done as real + k as real, t);
  }

  lemma DivideBack(x: real, y: real, t: real)
    requires t > 0.0 && x * t == y
    ensures x == y / t
  {
  }

  class StreamResampler {
    const srcRate: nat
    const dstRate: nat
    const coldFadeTotal: nat
    var coldFadeRemaining: nat
    var finalised: bool

    ghost predicate Valid()
      reads this
    {
      coldFadeRemaining <= coldFadeTotal && (srcRate == dstRate ==> !finalised)
    }

    function FadeDone(): nat
      reads this
      requires Valid()
    {
      coldFadeTotal - coldFadeRemaining
    }

    constructor (src: nat, dst: nat, coldFadeInSamples: int)
      ensures Valid() && srcRate == src && dstRate == dst && !finalised && FadeDone() == 0
      ensures coldFadeTotal == if coldFadeInSamples > 0 then coldFadeInSamples else 0
    {
      srcRate, dstRate, finalised := src, dst, false;
      var budget := if coldFadeInSamples > 0 then coldFadeInSamples else 0;
      coldFadeTotal, coldFadeRemaining := budget, budget;
    }

    /** Scales the head of `out` in place and spends the fade budget. */
    method ApplyColdFade(out: array<real>)
      requires Valid()
      modifies `coldFadeRemaining, out
      ensures Valid()
      ensures out[..] == Faded(old(out[..]), old(FadeDone()), coldFadeTotal)
      ensures FadeDone() == Consumed(old(FadeDone()), out.Length, coldFadeTotal)
    {
      if coldFadeRemaining == 0 || out.Length == 0 {
        return;
      }
      var total := coldFadeTotal;
      var consumed := total - coldFadeRemaining;
      var n := if coldFadeRemaining < out.Length then coldFadeRemaining else out.Length;
      ScaleHead(out, consumed, n, total);
      coldFadeRemaining := coldFadeRemaining - n;
    }

    /** `out[:n] *= linspace(consumed/total, (consumed+n)/total, n)` */
    static method ScaleHead(out: array<real>, consumed: nat, n: nat, total: nat)
      requires n <= out.Length && consumed + n <= total && (n < out.Length ==> consumed + n == total) && total > 0
      modifies out
      ensures out[..] == Faded(old(out[..]), consumed, total)
    {
      var start, stop := consumed as real / total as real, (consumed + n) as real / total as real;
      for k := 0 to n
        invariant forall i :: 0 <= i < k ==> out[i] == FadedSample(old(out[i]), consumed + i, total)
        invariant forall i :: k <= i < out.Length ==> out[i] == old(out[i])
      {
        LinspaceIsFade(consumed, n, total, k);
        out[k] := out[k] * Linspace(start, stop, n, k);
      }
    }

    /** Feeds a block; `emitted` is what the filter gives back, None when it
        raises. A finalised stream refuses further input. */
    method Process(audio: seq<real>, emitted: Option<seq<real>>) returns (r: Option<seq<real>>)
      requires Valid()
      modifies `coldFadeRemaining
      ensures Valid() && finalised == old(finalised)
      ensures srcRate == dstRate ==> r == Some(Faded(audio, old(FadeDone()), coldFadeTotal))
      ensures srcRate != dstRate && audio != [] && (finalised || emitted.None?) ==> r.None?
      ensures srcRate != dstRate && audio != [] && !finalised && emitted.Some? ==>
        r == Some(Faded(emitted.value, old(FadeDone()), coldFadeTotal))
      ensures srcRate != dstRate && audio == [] ==> r == Some([])
      ensures FadeDone() == Consumed(old(FadeDone()), if r.Some? then |r.value| else 0, coldFadeTotal)
    {
      if srcRate == dstRate {
        var block := Emit(audio);
        return Some(block);
      }
      if |audio| == 0 {
        return Some([]);
      }
      if finalised || emitted.None? {
        return None;
      }
      var block := Emit(emitted.value);
      return Some(block);
    }

    /** Drains the filter and finalises it. The identity resampler has nothing
        to drain and stays usable. */
    method Flush(emitted: Option<seq<real>>) returns (r: Option<seq<real>>)
      requires Valid()
      modifies `coldFadeRemaining, `finalised
      ensures Valid()
      ensures srcRate == dstRate ==> r == Some([])
      ensures srcRate != dstRate && (old(finalised) || emitted.None?) ==> r.None? && finalised == old(finalised)
      ensures srcRate != dstRate && !old(finalised) && emitted.Some? ==>
        finalised && r == Some(Faded(emitted.value, old(FadeDone()), coldFadeTotal))
      ensures FadeDone() == Consumed(old(FadeDone()), if r.Some? then |r.value| else 0, coldFadeTotal)
    {
      if srcRate == dstRate {
        return Some([]);
      }
      if finalised || emitted.None? {
        return None;
      }
      finalised := true;
      var block := Emit(emitted.value);
      return Some(block);
    }

    /** One call, an exception counted as no output. */
    method Do(c: Call) returns (r: seq<real>)
      requires Valid()
      modifies this
      ensures Valid() && finalised == Finalises(c, srcRate == dstRate, old(finalised))
      ensures r == Faded(RawEmit(c, srcRate == dstRate, old(finalised)), old(FadeDone()), coldFadeTotal)
      ensures FadeDone() == Consumed(old(FadeDone()), |r|, coldFadeTotal)
    {
      NothingFaded(FadeDone(), coldFadeTotal);
      hide Faded, Consumed;
      var result;
      match c {
        case Feed(audio, emitted) => result := Process(audio, emitted);
        case Finish(emitted) => result := Flush(emitted);
      }
      r := if result.Some? then result.value else [];
    }

    /** A whole life of the stream: any calls in any order. The joined output is
        everything the filter emitted under one ramp, however it was cut. */
    method Drive(calls: seq<Call>) returns (out: seq<real>)
      requires Valid()
      modifies this
      ensures Valid()
      ensures out == Faded(Concat(Emits(calls, srcRate == dstRate, old(finalised))), old(FadeDone()), coldFadeTotal)
      ensures finalised == FinalisedAfter(calls, srcRate == dstRate, old(finalised))
    {
      hide Faded, Consumed, RawEmit, Finalises, Emits, FinalisedAfter, Concat;
      NoCalls(srcRate == dstRate, finalised);
      out := [];
      ghost var identity, all := srcRate == dstRate, Emits(calls, srcRate == dstRate, finalised);
      ghost var raw: seq<real> := [];
      NothingFaded(FadeDone(), coldFadeTotal);
      for k := 0 to |calls|
        invariant Valid()
        invariant out == Faded(raw, old(FadeDone()), coldFadeTotal)
        invariant FadeDone() == Consumed(old(FadeDone()), |raw|, coldFadeTotal)
        invariant raw + Concat(Emits(calls[k..], identity, finalised)) == Concat(all)
        invariant FinalisedAfter(calls[k..], identity, finalised) == FinalisedAfter(calls, identity, old(finalised))
      {
        EmitsStep(calls[k..], identity, finalised);
        assert calls[k..][0] == calls[k] && calls[k..][1..] == calls[k + 1..];
        ghost var emit := RawEmit(calls[k], identity, finalised);
        var r := Do(calls[k]);
        FadedOn(raw, emit, old(FadeDone()), coldFadeTotal);
        assert raw + (emit + Concat(Emits(calls[k + 1..], identity, finalised)))
            == (raw + emit) + Concat(Emits(calls[k + 1..], identity, finalised));
        out := out + r;
        raw := raw + emit;
      }
      assert calls[|calls|..] == [];
      NoCalls(identity, finalised);
    }

    method Emit(block: seq<real>) returns (r: seq<real>)
      requires Valid()
      modifies `coldFadeRemaining
      ensures Valid()
      ensures r == Faded(block, old(FadeDone()), coldFadeTotal)
      ensures FadeDone() == Consumed(old(FadeDone()), |r|, coldFadeTotal)
    {
      var out := new real[|block|](i requires 0 <= i < |block| => block[i]);
      assert out[..] == block;
      ApplyColdFade(out);
      r := out[..];
    }
  }

  // ---------- runs of calls ----------

  /** A call and what the filter gives back for it, None when it raises. */
  datatype Call = Feed(audio: seq<real>, emitted: Option<seq<real>>) | Finish(emitted: Option<seq<real>>)

  /** The samples a call yields before the fade; nothing when it raises. */
  function RawEmit(c: Call, identity: bool, finalised: bool): seq<real> {
    match c
    case Feed(audio, emitted) =>
      if identity then audio else if audio == [] || finalised || emitted.None? then [] else emitted.value
    case Finish(emitted) =>
      if identity || finalised || emitted.None? then [] else emitted.value
  }

  function Finalises(c: Call, identity: bool, finalised: bool): bool {
    finalised || (c.Finish? && !identity && c.emitted.Some?)
  }

  function Emits(calls: seq<Call>, identity: bool, finalised: bool): seq<seq<real>> {
    if calls == [] then []
    else [RawEmit(calls[0], identity, finalised)] + Emits(calls[1..], identity, Finalises(calls[0], identity, finalised))
  }

  function FinalisedAfter(calls: seq<Call>, identity: bool, finalised: bool): bool {
    if calls == [] then finalised
    else FinalisedAfter(calls[1..], identity, Finalises(calls[0], identity, finalised))
  }

  lemma EmitsStep(calls: seq<Call>, identity: bool, finalised: bool)
    requires calls != []
    ensures var after := Finalises(calls[0], identity, finalised);
      && Concat(Emits(calls, identity, finalised))
           == RawEmit(calls[0], identity, finalised) + Concat(Emits(calls[1..], identity, after))
      && FinalisedAfter(calls, identity, finalised) == FinalisedAfter(calls[1..], identity, after)
  {
  }

  lemma NoCalls(identity: bool, finalised: bool)
    ensures Concat(Emits([], identity, finalised)) == [] && FinalisedAfter([], identity, finalised) == finalised
  {
  }

  lemma NothingFaded(done: nat, total: nat)
    ensures Faded([], done, total) == []
    ensures done <= total ==> Consumed(done, 0, total) == done
  {
  }

  lemma FadedOn(raw: seq<real>, emit: seq<real>, done: nat, total: nat)
    requires done <= total
    ensures Faded(raw, done, total) + Faded(emit, Consumed(done, |raw|, total), total) == Faded(raw + emit, done, total)
    ensures Consumed(Consumed(done, |raw|, total), |emit|, total) == Consumed(done, |raw + emit|, total)
    ensures Faded([], Consumed(done, |raw|, total), total) == []
  {
    hide FadeWeight;
  }

  // ---------- independence of chunking ----------

  function Concat(blocks: seq<seq<real>>): seq<real> {
    if blocks == [] then [] else blocks[0] + Concat(blocks[1..])
  }

  /** The emits of one stream, each faded from where the last one stopped. */
  function FadeBlocks(blocks: seq<seq<real>>, done: nat, total: nat): (r: seq<seq<real>>)
    ensures |r| == |blocks|
  {
    if blocks == [] then []
    else [Faded(blocks[0], done, total)] + FadeBlocks(blocks[1..], Consumed(done, |blocks[0]|, total), total)
  }

  lemma {:induction false} FadeBlocksFrom(blocks: seq<seq<real>>, done: nat, total: nat, at: nat)
    requires done == Consumed(at, 0, total)
    ensures Concat(FadeBlocks(blocks, done, total)) == Faded(Concat(blocks), at, total)
  {
    if blocks != [] {
      var rest := FadeBlocks(blocks[1..], Consumed(done, |blocks[0]|, total), total);
      FadeBlocksFrom(blocks[1..], Consumed(done, |blocks[0]|, total), total, at + |blocks[0]|);
      assert FadeBlocks(blocks, done, total)[1..] == rest;
      assert Faded(blocks[0], done, total) == Faded(blocks[0], at, total);
      hide FadedSample;
      var whole := Faded(Concat(blocks), at, total);
      assert whole == Faded(blocks[0], at, total) + Faded(Concat(blocks[1..]), at + |blocks[0]|, total);
    }
  }

  /** However the output is cut into emits, sample i of the stream is scaled by
      i/total while i < total and left alone afterwards. */
  lemma ColdFadeIgnoresChunking(blocks: seq<seq<real>>, total: nat, i: nat)
    requires i < |Concat(blocks)|
    ensures |Concat(FadeBlocks(blocks, 0, total))| == |Concat(blocks)|
    ensures Concat(FadeBlocks(blocks, 0, total))[i] ==
      if i < total then Concat(blocks)[i] * (i as real / total as real) else Concat(blocks)[i]
  {
    FadeBlocksFrom(blocks, 0, total, 0);
  }
}
