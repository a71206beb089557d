// The pitch carry: what the engine remembers of the last voiced frame between
// chunks, and why chunked bridging agrees with bridging the whole track.
module PitchCarry {
  import opened Pitch

  /** Index of the last positive value before i, or -1. */
  function LastPositive(r: seq<real>, i: nat): (k: int)
    requires i <= |r|
    ensures -1 <= k < i
    ensures k >= 0 ==> r[k] > 0.0
    ensures forall j :: k < j < i ==> r[j] <= 0.0
  {
    if i == 0 then -1 else if r[i - 1] > 0.0 then i - 1 else LastPositive(r, i - 1)
  }

  function NextCarry(c: Carry, r: seq<real>): Carry {
    var k := LastPositive(r, |r|);
    if k >= 0 then Carry(r[k], |r| - 1 - k)
    else if c.age >= 0 then Carry(c.f0, c.age + |r|)
    else c
  }

  /** What the carry should be after track s: its last valid frame and the
      length of the unvoiced run behind it. */
  function TrueCarry(s: seq<Frame>): Carry {
    var k := LastValid(s, |s|);
    if k >= 0 then Carry(s[k].value, |s| - 1 - k) else NO_CARRY
  }

  /** The streaming engine's two carry fields and the call that uses them. */
  class PitchTracker {
    var carryF0: real
    var carryAge: int

    function CarryState(): Carry
      reads this
    {
      Carry(carryF0, carryAge)
    }

    constructor ()
      ensures CarryState() == NO_CARRY
    {
      carryF0, carryAge := 0.0, -1;
    }

    /** The carry part of a streaming reset. */
    method Reset()
      modifies this
      ensures CarryState() == NO_CARRY
    {
      carryF0, carryAge := 0.0, -1;
    }

    method Track(m: LogExp, pitchf: seq<Frame>) returns (r: seq<real>)
      modifies this
      ensures r == Bridged(m, pitchf, old(CarryState()))
      ensures CarryState() == NextCarry(old(CarryState()), r)
    {
      hide Bridged, BridgedFrame;
      r := InterpolateVoicedGaps(m, pitchf, Carry(carryF0, carryAge));
      var last := FlatNonZeroLast(r);
      if last >= 0 {
        carryF0 := r[last];
        carryAge := |r| - 1 - last;
      } else if carryAge >= 0 {
        carryAge := carryAge + |r|;
      }
    }
  }

  /** The last index with a positive value. */
  method FlatNonZeroLast(r: seq<real>) returns (k: int)
    ensures k == LastPositive(r, |r|)
  {
    k := |r| - 1;
    while k >= 0 && r[k] <= 0.0
      invariant -1 <= k < |r|
      invariant LastPositive(r, k + 1) == LastPositive(r, |r|)
    {
      k := k - 1;
    }
  }

  // ---------- the carry stays true ----------

  lemma LastPositiveIs(r: seq<real>, k: int)
    requires -1 <= k < |r| && (k >= 0 ==> r[k] > 0.0)
    requires forall j :: k < j < |r| ==> r[j] <= 0.0
    ensures LastPositive(r, |r|) == k
  {
  }

  /** Bridging never moves the last voiced frame, nor its pitch. */
  lemma LastVoicedKept(m: LogExp, s: seq<Frame>, c: Carry)
    ensures var k := LastValid(s, |s|);
      && LastPositive(Bridged(m, s, c), |s|) == k
      && (k >= 0 ==> Bridged(m, s, c)[k] == s[k].value)
  {
    var r, k := Bridged(m, s, c), LastValid(s, |s|);
    forall j | k < j < |s| ensures r[j] <= 0.0 {
      UnvoicedEndKept(m, s, c, j);
    }
    if k >= 0 {
      ValidFrameKept(m, s, c, k);
    }
    hide BridgedFrame;
    LastPositiveIs(r, k);
  }

  lemma LastValidOfConcat(p: seq<Frame>, s: seq<Frame>, i: nat)
    requires i <= |s|
    ensures LastValid(p + s, |p| + i) ==
      if LastValid(s, i) >= 0 then |p| + LastValid(s, i) else LastValid(p, |p|)
  {
    var k := if LastValid(s, i) >= 0 then |p| + LastValid(s, i) else LastValid(p, |p|);
    assert forall j :: k < j < |p| + i ==> Invalid((p + s)[j]) by {
      hide Invalid;
    }
    LastValidIs(p + s, |p| + i, k);
  }

  /** After each chunk the carry is the true one of everything seen so far. */
  lemma CarryStaysTrue(m: LogExp, p: seq<Frame>, s: seq<Frame>)
    ensures NextCarry(TrueCarry(p), Bridged(m, s, TrueCarry(p))) == TrueCarry(p + s)
  {
    LastVoicedKept(m, s, TrueCarry(p));
    LastValidOfConcat(p, s, |s|);
    hide BridgedFrame, Bridged, LastPositive, LastValid;
  }

  // ---------- chunked = whole ----------

  /** A frame of a chunk that some later frame of the same chunk voices. */
  predicate BeforeVoiced(s: seq<Frame>, i: nat)
    requires i < |s|
  {
    NextValid(s, i) < |s|
  }

  lemma NextValidOfConcat(p: seq<Frame>, s: seq<Frame>, q: seq<Frame>, i: nat)
    requires i < |s| && BeforeVoiced(s, i)
    ensures NextValid(p + s + q, |p| + i) == |p| + NextValid(s, i)
  {
    var k := NextValid(s, i);
    assert (p + s + q)[|p| + k] == s[k];
    assert forall j :: |p| + i <= j < |p| + k ==> (p + s + q)[j] == s[j - |p|];
    NextValidIs(p + s + q, |p| + i, |p| + k);
  }

  lemma LastValidInMiddle(p: seq<Frame>, s: seq<Frame>, q: seq<Frame>, i: nat)
    requires i < |s|
    ensures LastValid(p + s + q, |p| + i) == LastValid(p + s, |p| + i)
  {
    var k := LastValid(p + s, |p| + i);
    assert forall j :: 0 <= j < |p| + i ==> (p + s + q)[j] == (p + s)[j];
    LastValidIs(p + s + q, |p| + i, k);
  }

  /** The virtual anchor: a leading gap bridged from the true carry has the
      same anchors, step and span as in the whole track. */
  lemma FrameAgrees(m: LogExp, p: seq<Frame>, s: seq<Frame>, q: seq<Frame>, i: nat)
    requires i < |s| && BeforeVoiced(s, i)
    ensures BridgedFrame(m, s, TrueCarry(p), i) == BridgedFrame(m, p + s + q, NO_CARRY, |p| + i)
  {
    var w := p + s + q;
    NextValidOfConcat(p, s, q, i);
    LastValidInMiddle(p, s, q, i);
    LastValidOfConcat(p, s, i);
    assert w[|p| + i] == s[i] && w[|p| + NextValid(s, i)] == s[NextValid(s, i)];
    if LastValid(s, i) >= 0 {
      assert w[|p| + LastValid(s, i)] == s[LastValid(s, i)];
    } else if LastValid(p, |p|) >= 0 {
      assert w[LastValid(p, |p|)] == p[LastValid(p, |p|)];
    }
    hide Glide, LastValid, NextValid;
  }

  function Flatten(chunks: seq<seq<Frame>>): seq<Frame> {
    if chunks == [] then [] else chunks[0] + Flatten(chunks[1..])
  }

  /** The outputs of successive calls, starting from carry c. */
  function BridgeChunks(m: LogExp, chunks: seq<seq<Frame>>, c: Carry): (r: seq<seq<real>>)
    ensures |r| == |chunks|
    ensures forall k :: 0 <= k < |r| ==> |r[k]| == |chunks[k]|
  {
    if chunks == [] then []
    else
      var first := Bridged(m, chunks[0], c);
      [first] + BridgeChunks(m, chunks[1..], NextCarry(c, first))
  }

  /** What the k-th output is, the carry being the true one of p. */
  lemma {:induction false} ChunksAgreeFrom(m: LogExp, p: seq<Frame>, chunks: seq<seq<Frame>>, k: nat, i: nat)
    requires k < |chunks| && i < |chunks[k]|
    ensures |Flatten(chunks[..k])| + |chunks[k]| <= |Flatten(chunks)|
    ensures var out := BridgeChunks(m, chunks, TrueCarry(p))[k][i];
      if BeforeVoiced(chunks[k], i)
      then out == BridgedFrame(m, p + Flatten(chunks), NO_CARRY, |p| + |Flatten(chunks[..k])| + i)
      else out == Clean(chunks[k][i]) <= 0.0
    decreases k
  {
    hide *;
    var first := chunks[0];
    FlattenStep(chunks);
    BridgeStep(m, chunks, TrueCarry(p));
    assert p + Flatten(chunks) == p + first + Flatten(chunks[1..]);
    if k == 0 {
      FlattenNone(chunks);
      FirstChunkAgrees(m, p, first, Flatten(chunks[1..]), i);
    } else {
      CarryStaysTrue(m, p, first);
      assert chunks[..k][1..] == chunks[1..][..k - 1];
      FlattenStep(chunks[..k]);
      ChunksAgreeFrom(m, p + first, chunks[1..], k - 1, i);
    }
  }

  lemma FlattenStep(chunks: seq<seq<Frame>>)
    requires chunks != []
    ensures Flatten(chunks) == chunks[0] + Flatten(chunks[1..])
  {
  }

  lemma FlattenNone(chunks: seq<seq<Frame>>)
    ensures Flatten(chunks[..0]) == []
  {
  }

  lemma BridgeStep(m: LogExp, chunks: seq<seq<Frame>>, c: Carry)
    requires chunks != []
    ensures BridgeChunks(m, chunks, c)[0] == Bridged(m, chunks[0], c)
    ensures forall k :: 0 < k < |chunks| ==>
      BridgeChunks(m, chunks, c)[k] == BridgeChunks(m, chunks[1..], NextCarry(c, Bridged(m, chunks[0], c)))[k - 1]
  {
  }

  lemma FirstChunkAgrees(m: LogExp, p: seq<Frame>, first: seq<Frame>, rest: seq<Frame>, i: nat)
    requires i < |first|
    ensures var out := Bridged(m, first, TrueCarry(p))[i];
      if BeforeVoiced(first, i)
      then out == BridgedFrame(m, p + first + rest, NO_CARRY, |p| + i)
      else out == Clean(first[i]) <= 0.0
  {
    hide BridgedFrame, TrueCarry;
    if BeforeVoiced(first, i) {
      FrameAgrees(m, p, first, rest, i);
    } else {
      UnvoicedEndKept(m, first, TrueCarry(p), i);
    }
  }

  /** Chunked bridging with the carry agrees with bridging the whole track on
      every frame of every chunk, except in a chunk's trailing unvoiced run,
      which stays as cleaned. */
  lemma ChunksAgree(m: LogExp, chunks: seq<seq<Frame>>, k: nat, i: nat)
    requires k < |chunks| && i < |chunks[k]|
    ensures |Flatten(chunks[..k])| + |chunks[k]| <= |Flatten(chunks)|
    ensures var out := BridgeChunks(m, chunks, NO_CARRY)[k][i];
      if BeforeVoiced(chunks[k], i)
      then out == Bridged(m, Flatten(chunks), NO_CARRY)[|Flatten(chunks[..k])| + i]
      else out == Clean(chunks[k][i]) <= 0.0
  {
    assert TrueCarry([]) == NO_CARRY;
    assert [] + Flatten(chunks) == Flatten(chunks);
    ChunksAgreeFrom(m, [], chunks, k, i);
    hide BridgedFrame;
  }
}
