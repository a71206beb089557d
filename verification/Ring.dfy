// The ring buffer as the helper runs it: fields updated in place, two-part
// copies into and out of a shared array, and the audio callback on top.
module Ring {
  import opened RingIndex
  import opened PlaybackMachine

  /** Wrapped counters that are at most capacity - 1 apart. */
  ghost predicate RingFields(cap: nat, head: nat, tail: nat) {
    AcceptsRingFrames(cap) && head < U32 && tail < U32 && Wrap(tail - head) < cap
  }

  lemma FieldsAre(cap: nat, head: nat, tail: nat)
    requires RingFields(cap, head, tail)
    ensures AcceptsRingFrames(cap) && cap > 0 && head < U32 && tail < U32 && Wrap(tail - head) < cap
  {
  }

  lemma WrapBack(head: nat, tail: nat)
    requires head < U32 && tail < U32
    ensures Wrap(head + Wrap(tail - head)) == tail
  {
    var turns := if tail >= head then 0 else 1;
    ModuloUnique(tail - head, U32, -turns, tail - head + turns * U32);
    ModuloUnique(tail + turns * U32, U32, turns, tail);
  }

  lemma FieldsAsCounters(cap: nat, head: nat, tail: nat) returns (occupied: nat)
    requires RingFields(cap, head, tail)
    ensures occupied == Occupied(head, tail, cap) < cap
    ensures Wrap(head) == head && Wrap(head + occupied) == tail
  {
    hide *;
    FieldsAre(cap, head, tail);
    occupied := Wrap(tail - head);
    WrapSmall(head);
    WrapBack(head, tail);
    OccupiedIsDifference(head, head + occupied, cap);
  }

  lemma ContentsAre(buf: seq<Frame>, head: nat, tail: nat)
    requires |buf| > 0
    ensures |RingContents(buf, head, tail)| == Occupied(head, tail, |buf|)
    ensures Holds(buf, head, RingContents(buf, head, tail))
  {
    hide Slot, Occupied;
  }

  lemma HoldsAt(buf: seq<Frame>, from: nat, frames: seq<Frame>, i: nat)
    requires Holds(buf, from, frames) && |buf| > 0 && i < |frames|
    ensures Slot(from + i, |buf|) < |buf| && buf[Slot(from + i, |buf|)] == frames[i]
  {
    SlotBelow(from + i, |buf|);
  }

  lemma HeldIsContents(buf: seq<Frame>, head: nat, tail: nat, frames: seq<Frame>)
    requires |buf| > 0 && Holds(buf, head, frames) && |frames| == Occupied(head, tail, |buf|)
    ensures RingContents(buf, head, tail) == frames
  {
    hide Slot, Occupied;
  }

  /** Advancing `head` drops the oldest frames. */
  lemma AdvanceHead(buf: seq<Frame>, head: nat, tail: nat, take: nat)
    requires RingFields(|buf|, head, tail) && take <= |RingContents(buf, head, tail)|
    ensures RingFields(|buf|, Wrap(head + take), tail)
    ensures RingContents(buf, Wrap(head + take), tail) == RingContents(buf, head, tail)[take..]
  {
    hide *;
    FieldsAre(|buf|, head, tail);
    var occupied := FieldsAsCounters(|buf|, head, tail);
    ContentsAre(buf, head, tail);
    FieldsOfCounters(|buf|, head + take, head + occupied);
    ContentsAre(buf, Wrap(head + take), tail);
    var before, after := RingContents(buf, head, tail), RingContents(buf, Wrap(head + take), tail);
    forall i | 0 <= i < occupied - take ensures after[i] == before[take + i] {
      SlotOfWrapped(head + take, i, |buf|);
      assert head + take + i == head + (take + i);
      HoldsAt(buf, head, before, take + i);
      HoldsAt(buf, Wrap(head + take), after, i);
    }
  }

  lemma FieldsOfCounters(cap: nat, r: nat, w: nat)
    requires AcceptsRingFrames(cap) && r <= w < r + cap
    ensures RingFields(cap, Wrap(r), Wrap(w)) && Occupied(Wrap(r), Wrap(w), cap) == w - r
  {
    hide Occupied, AcceptsRingFrames, Wrap;
    AcceptedBelow(cap);
    OccupiedIsDifference(r, w, cap);
    WrapDifference(r, w);
    WrapBelow(r);
    WrapBelow(w);
  }

  lemma WrapBelow(x: nat)
    ensures Wrap(x) < U32
  {
  }

  lemma AcceptedBelow(cap: nat)
    requires AcceptsRingFrames(cap)
    ensures 0 < cap < U32
  {
  }

  lemma WrapDifference(r: nat, w: nat)
    requires r <= w < r + U32
    ensures Wrap(Wrap(w) - Wrap(r)) == w - r
  {
    var turns := WrappedTurns(r, w);
    ModuloUnique(Wrap(w) - Wrap(r), U32, turns, w - r);
  }

  /** Advancing `tail` over slots that hold `frames` appends them. */
  lemma AdvanceTail(buf: seq<Frame>, buf': seq<Frame>, head: nat, tail: nat, frames: seq<Frame>)
    requires RingFields(|buf|, head, tail) && |buf'| == |buf|
    requires |RingContents(buf, head, tail)| + |frames| < |buf|
    requires Holds(buf', head, RingContents(buf, head, tail) + frames)
    ensures RingFields(|buf|, head, Wrap(tail + |frames|))
    ensures RingContents(buf', head, Wrap(tail + |frames|)) == RingContents(buf, head, tail) + frames
  {
    hide *;
    FieldsAre(|buf|, head, tail);
    var occupied := FieldsAsCounters(|buf|, head, tail);
    var contents := RingContents(buf, head, tail);
    ContentsAre(buf, head, tail);
    WrapAdd(head + occupied, |frames|);
    FieldsOfCounters(|buf|, head, head + occupied + |frames|);
    HeldIsContents(buf', head, Wrap(tail + |frames|), contents + frames);
  }

  lemma FirstInRange(start: nat, cap: nat, head: nat, tail: nat)
    requires RingFields(cap, head, tail)
    ensures BitAnd(start, cap - 1) < cap
  {
    MaskReduces(start, cap);
  }

  /** The two source ranges of a pop are the oldest frames. */
  lemma PopRanges(buf: seq<Frame>, head: nat, tail: nat, take: nat, first: nat, a: nat)
    requires RingFields(|buf|, head, tail) && take <= |RingContents(buf, head, tail)|
    requires first == BitAnd(head, |buf| - 1) < |buf|
    requires a == Min(take, |buf| - first) && take - a <= |buf|
    ensures RingContents(buf, head, tail)[..take] == buf[first..first + a] + buf[..take - a]
  {
    hide *;
    FieldsAre(|buf|, head, tail);
    var occupied := FieldsAsCounters(|buf|, head, tail);
    ContentsAre(buf, head, tail);
    PopRangesFrom(buf, head, tail, RingContents(buf, head, tail), take, first, a);
  }

  lemma PopRangesFrom(buf: seq<Frame>, head: nat, tail: nat, contents: seq<Frame>, take: nat, first: nat, a: nat)
    requires AcceptsRingFrames(|buf|) && head < U32 && take <= |contents| < |buf|
    requires Holds(buf, head, contents)
    requires first == BitAnd(head, |buf| - 1) < |buf|
    requires a == Min(take, |buf| - first) && take - a <= |buf|
    ensures contents[..take] == buf[first..first + a] + buf[..take - a]
  {
    hide *;
    AcceptedBelow(|buf|);
    MinIs(take, |buf| - first);
    var copied := buf[first..first + a] + buf[..take - a];
    forall j | 0 <= j < take ensures contents[j] == copied[j] {
      CopySlot(head, take, |buf|, j);
      TransferSlotIs(head, take, |buf|, j);
      HoldsAt(buf, head, contents, j);
    }
  }

  /** A slot of the buffer after both copies of a push of `frames`. */
  function AfterPush(buf: seq<Frame>, frames: seq<Frame>, first: nat, a: nat): (r: seq<Frame>)
    requires a <= |frames| && first + a <= |buf| && |frames| - a <= first
    ensures |r| == |buf|
  {
    frames[a..] + buf[|frames| - a..first] + frames[..a] + buf[first + a..]
  }

  lemma LiveSlotIsNotWritten(head: nat, occupied: nat, tail: nat, count: nat, cap: nat, i: nat, j: nat)
    requires AcceptsRingFrames(cap) && tail == Wrap(head + occupied)
    requires i < occupied && j < count && occupied + count < cap
    ensures TransferSlot(tail, count, cap, j) != Slot(head + i, cap) < cap
  {
    hide Slot, Wrap, TransferSlot, AcceptsRingFrames;
    TransferSlotIsModulo(head + occupied, count, cap, j);
    SlotsDistinct(head + i, head + occupied + j, cap);
    SlotBelow(head + i, cap);
  }

  lemma SlotUntouched(buf: seq<Frame>, head: nat, occupied: nat, tail: nat, frames: seq<Frame>, first: nat, a: nat, i: nat)
    requires AcceptsRingFrames(|buf|) && tail == Wrap(head + occupied)
    requires i < occupied && occupied + |frames| < |buf|
    requires first == BitAnd(tail, |buf| - 1) < |buf| && a == Min(|frames|, |buf| - first)
    ensures Slot(head + i, |buf|) < |buf|
    ensures AfterPush(buf, frames, first, a)[Slot(head + i, |buf|)] == buf[Slot(head + i, |buf|)]
  {
    hide Wrap, Slot, BitAnd, AcceptsRingFrames;
    var slot := Slot(head + i, |buf|);
    SlotBelow(head + i, |buf|);
    if slot < |frames| - a {
      LiveSlotIsNotWritten(head, occupied, tail, |frames|, |buf|, i, slot + a);
    } else if first <= slot < first + a {
      LiveSlotIsNotWritten(head, occupied, tail, |frames|, |buf|, i, slot - first);
    }
  }

  lemma SlotWritten(buf: seq<Frame>, start: nat, tail: nat, frames: seq<Frame>, first: nat, a: nat, j: nat)
    requires AcceptsRingFrames(|buf|) && tail == Wrap(start)
    requires j < |frames| < |buf|
    requires first == BitAnd(tail, |buf| - 1) < |buf| && a == Min(|frames|, |buf| - first)
    ensures Slot(start + j, |buf|) < |buf|
    ensures AfterPush(buf, frames, first, a)[Slot(start + j, |buf|)] == frames[j]
  {
    hide Wrap, Slot, BitAnd, AcceptsRingFrames;
    TransferSlotIsModulo(start, |frames|, |buf|, j);
  }

  /** A push fills the free slots behind the live frames and no other slot. */
  lemma PushRanges(buf: seq<Frame>, head: nat, tail: nat, frames: seq<Frame>, first: nat, a: nat)
    requires RingFields(|buf|, head, tail) && |RingContents(buf, head, tail)| + |frames| < |buf|
    requires first == BitAnd(tail, |buf| - 1) < |buf|
    requires a == Min(|frames|, |buf| - first)
    ensures |frames| - a <= first
    ensures Holds(AfterPush(buf, frames, first, a), head, RingContents(buf, head, tail) + frames)
  {
    hide *;
    FieldsAre(|buf|, head, tail);
    var occupied := FieldsAsCounters(|buf|, head, tail);
    ContentsAre(buf, head, tail);
    MinIs(|frames|, |buf| - first);
    PushRangesFrom(buf, head, tail, RingContents(buf, head, tail), frames, first, a);
  }

  lemma MinIs(x: nat, y: nat)
    ensures Min(x, y) == if x < y then x else y
  {
  }

  lemma PushRangesFrom(buf: seq<Frame>, head: nat, tail: nat, contents: seq<Frame>, frames: seq<Frame>, first: nat, a: nat)
    requires AcceptsRingFrames(|buf|) && Wrap(head + |contents|) == tail && |contents| + |frames| < |buf|
    requires Holds(buf, head, contents)
    requires first == BitAnd(tail, |buf| - 1) < |buf|
    requires a == Min(|frames|, |buf| - first)
    ensures |frames| - a <= first
    ensures Holds(AfterPush(buf, frames, first, a), head, contents + frames)
  {
    hide Wrap, Slot, BitAnd, AcceptsRingFrames, AfterPush;
    var occupied, buf' := |contents|, AfterPush(buf, frames, first, a);
    forall i | 0 <= i < occupied + |frames|
      ensures Slot(head + i, |buf|) < |buf| == |buf'| && buf'[Slot(head + i, |buf|)] == (contents + frames)[i]
    {
      if i >= occupied {
        SlotWritten(buf, head + occupied, tail, frames, first, a, i - occupied);
        assert head + occupied + (i - occupied) == head + i;
      } else {
        SlotUntouched(buf, head, occupied, tail, frames, first, a, i);
      }
    }
  }

  lemma TransferSlotIs(start: nat, count: nat, cap: nat, j: nat)
    requires cap > 0
    ensures var first := BitAnd(start, cap - 1); var a := if count < cap - first then count else cap - first;
      TransferSlot(start, count, cap, j) == if j < a then first + j else j - a
  {
  }

  lemma CopySlot(start: nat, count: nat, cap: nat, j: nat)
    requires AcceptsRingFrames(cap) && start < U32 && j < count < cap
    ensures TransferSlot(start, count, cap, j) == Slot(start + j, cap) < cap
  {
    WrapSmall(start);
    hide Wrap, Slot, TransferSlot, AcceptsRingFrames;
    TransferSlotIsModulo(start, count, cap, j);
  }

  /** s with x written over it from position `at` on. */
  function Spliced(s: seq<Frame>, at: nat, x: seq<Frame>): (r: seq<Frame>)
    requires at + |x| <= |s|
    ensures |r| == |s|
  {
    s[..at] + x + s[at + |x|..]
  }

  /** `memcpy` of whole frames between two buffers. */
  method CopyFrames(dst: array<Frame>, at: nat, src: array<Frame>, from: nat, n: nat)
    requires dst != src && at + n <= dst.Length && from + n <= src.Length
    modifies dst
    ensures dst[..] == Spliced(old(dst[..]), at, src[from..from + n])
  {
    var j := 0;
    while j < n
      invariant j <= n
      invariant dst[..at] == old(dst[..at]) && dst[at..at + j] == src[from..from + j]
      invariant dst[at + j..] == old(dst[at + j..])
    {
      dst[at + j] := src[from + j];
      j := j + 1;
    }
    assert dst[..] == dst[..at] + dst[at..at + n] + dst[at + n..];
  }

  /** The two copies of a push. */
  method CopyAround(buf: array<Frame>, first: nat, src: array<Frame>, from: nat, put: nat, a: nat)
    requires buf != src && from + put <= src.Length
    requires a <= put && first + a <= buf.Length && put - a <= first
    modifies buf
    ensures buf[..] == AfterPush(old(buf[..]), src[from..from + put], first, a)
  {
    hide AfterPush, Spliced;
    ghost var was, frames := buf[..], src[from..from + put];
    CopyFrames(buf, first, src, from, a);
    assert src[from..from + a] == src[from..from + put][..a];
    if a < put {
      CopyFrames(buf, 0, src, from + a, put - a);
      assert src[from + a..from + a + (put - a)] == frames[a..];
    }
    TwoCopies(was, frames, first, a);
  }

  lemma TwoCopies(was: seq<Frame>, frames: seq<Frame>, first: nat, a: nat)
    requires a <= |frames| && first + a <= |was| && |frames| - a <= first
    ensures AfterPush(was, frames, first, a) == Spliced(Spliced(was, first, frames[..a]), 0, frames[a..])
    ensures a == |frames| ==> AfterPush(was, frames, first, a) == Spliced(was, first, frames[..a])
  {
    var between := Spliced(was, first, frames[..a]);
    assert between[|frames| - a..] == was[|frames| - a..first] + frames[..a] + was[first + a..];
    if a == |frames| {
      assert frames[a..] == [] && was[0..first] == was[..first];
    }
  }

  /** The two copies of a pop. */
  method CopyRanges(dst: array<Frame>, buf: array<Frame>, first: nat, take: nat, a: nat)
    requires buf != dst && take <= dst.Length && a <= take && first + a <= buf.Length && take - a <= buf.Length
    modifies dst
    ensures dst[..] == (buf[..][first..first + a] + buf[..][..take - a]) + old(dst[take..])
  {
    hide Spliced;
    ghost var was, x, y := dst[..], buf[first..first + a], buf[..take - a];
    CopyFrames(dst, 0, buf, first, a);
    if a < take {
      CopyFrames(dst, a, buf, 0, take - a);
    }
    TwoPops(was, x, y);
  }

  lemma TwoPops(was: seq<Frame>, x: seq<Frame>, y: seq<Frame>)
    requires |x| + |y| <= |was|
    ensures Spliced(Spliced(was, 0, x), |x|, y) == (x + y) + was[|x| + |y|..]
    ensures y == [] ==> Spliced(was, 0, x) == (x + y) + was[|x| + |y|..]
  {
  }

  class Ring {
    const buf: array<Frame>
    var head: nat
    var tail: nat

    ghost predicate Valid()
      reads this
    {
      RingFields(buf.Length, head, tail)
    }

    ghost function Contents(): seq<Frame>
      requires Valid()
      reads this, buf
    {
      RingContents(buf[..], head, tail)
    }

    constructor (capacity: nat, channels: nat)
      requires AcceptsRingFrames(capacity)
      ensures Valid() && fresh(buf) && buf.Length == capacity
      ensures Contents() == []
    {
      buf := new Frame[capacity](_ => Silence(channels));
      head, tail := 0, 0;
      new;
      OccupiedIsDifference(0, 0, capacity);
    }

    method Readable() returns (n: nat)
      requires Valid()
      ensures n == |Contents()| < buf.Length
    {
      ghost var occupied := FieldsAsCounters(buf.Length, head, tail);
      n := BitAnd(Wrap(tail - head), buf.Length - 1);
    }

    method Writable() returns (n: nat)
      requires Valid()
      ensures n == buf.Length - 1 - |Contents()|
    {
      ghost var occupied := FieldsAsCounters(buf.Length, head, tail);
      n := (buf.Length - 1) - BitAnd(Wrap(tail - head), buf.Length - 1);
    }

    /** Pops the oldest frames into `dst`; nothing else of `dst` changes. */
    method Pop(dst: array<Frame>, n: nat) returns (take: nat)
      requires Valid() && n <= dst.Length && dst != buf
      modifies this`head, dst
      ensures Valid()
      ensures take == Min(n, |old(Contents())|)
      ensures dst[..] == old(Contents())[..take] + old(dst[take..])
      ensures Contents() == old(Contents())[take..]
    {
      hide Slot, Wrap, BitAnd, Occupied, AcceptsRingFrames, RingContents, RingFields;
      var avail := Readable();
      take := Min(n, avail);
      if take == 0 {
        return;
      }
      ghost var contents := Contents();
      FirstInRange(head, buf.Length, head, tail);
      var first := BitAnd(head, buf.Length - 1);
      var toEnd := buf.Length - first;
      var a := if take < toEnd then take else toEnd;
      PopRanges(buf[..], head, tail, take, first, a);
      AdvanceHead(buf[..], head, tail, take);
      CopyRanges(dst, buf, first, take, a);
      head := Wrap(head + take);
    }

    /** Appends as many frames of `src[from..]` as fit, oldest first. */
    method Push(src: array<Frame>, from: nat, n: nat) returns (put: nat)
      requires Valid() && from + n <= src.Length && src != buf
      modifies this`tail, buf
      ensures Valid()
      ensures var room := buf.Length - 1 - |old(Contents())|;
        room >= 0 && put == if n < room then n else room
      ensures Contents() == old(Contents()) + src[from..from + put]
    {
      hide Slot, Wrap, BitAnd, Occupied, AcceptsRingFrames, RingContents, RingFields;
      var avail := Writable();
      put := Min(n, avail);
      if put == 0 {
        return;
      }
      FirstInRange(tail, buf.Length, head, tail);
      var first := BitAnd(tail, buf.Length - 1);
      var toEnd := buf.Length - first;
      var a := if put < toEnd then put else toEnd;
      ghost var was, frames := buf[..], src[from..from + put];
      PushRanges(was, head, tail, frames, first, a);
      CopyAround(buf, first, src, from, put, a);
      AdvanceTail(was, buf[..], head, tail, frames);
      tail := Wrap(tail + put);
    }
  }

  /** The helper's audio side: the ring and the short-buffer counter. */
  class AudioCallback {
    const ring: Ring
    const channels: nat
    var underruns: nat

    ghost predicate Valid()
      reads this, ring
    {
      ring.Valid() && underruns == Wrap64(underruns)
    }

    constructor (capacity: nat, channels: nat)
      requires AcceptsRingFrames(capacity)
      ensures Valid() && fresh(ring) && fresh(ring.buf)
      ensures ring.Contents() == [] && underruns == 0 && this.channels == channels
    {
      hide AcceptsRingFrames, RingFields, RingContents, Occupied, BitAnd, Wrap;
      ring := new Ring(capacity, channels);
      this.channels := channels;
      underruns := 0;
    }

    /** Fills the queued part of `dst`: the oldest frames of the ring, then
        silence. Same buffer and counter as the uninterrupted callback of the
        machine (lemma UninterruptedCallback). */
    method OnProcess(dst: array<Frame>, requested: nat) returns (want: nat)
      requires Valid() && dst != ring.buf
      modifies this`underruns, ring`head, dst
      ensures Valid()
      ensures requested == 0 ==> want == dst.Length
      ensures requested > 0 ==> want == if requested < dst.Length then requested else dst.Length
      ensures var contents := old(ring.Contents());
        var got := Min(want, |contents|);
        && dst[..want] == Fill(contents[..got], want, channels).frames
        && dst[..got] == contents[..got]
        && (forall i :: got <= i < want ==>
              |dst[i].samples| == channels && forall c :: 0 <= c < channels ==> dst[i].samples[c] == 0.0)
        && dst[want..] == old(dst[want..])
        && ring.Contents() == contents[got..]
        && underruns == if |contents| < want then Wrap64(old(underruns) + 1) else old(underruns)
    {
      hide RingContents, RingFields, Fill;
      want := if 0 < requested < dst.Length then requested else dst.Length;
      var got := ring.Pop(dst, want);
      ghost var popped := dst[..got];
      ZeroFill(dst, got, want, channels);
      FilledIs(dst[..want], popped, channels);
      if got < want {
        underruns := (underruns + 1) % 0x1_0000_0000_0000_0000;
      }
    }
  }

  /** Silences the frames from `got` on, up to `want`. */
  method ZeroFill(dst: array<Frame>, got: nat, want: nat, channels: nat)
    requires got <= want <= dst.Length
    modifies dst
    ensures dst[..got] == old(dst[..got]) && dst[want..] == old(dst[want..])
    ensures forall i :: got <= i < want ==> dst[i] == Silence(channels)
  {
    var i := got;
    while i < want
      invariant got <= i <= want
      invariant forall k :: got <= k < i ==> dst[k] == Silence(channels)
      invariant forall k :: 0 <= k < got || want <= k < dst.Length ==> dst[k] == old(dst[k])
    {
      dst[i] := Silence(channels);
      i := i + 1;
    }
  }

  lemma FilledIs(all: seq<Frame>, got: seq<Frame>, channels: nat)
    requires |got| <= |all| && all[..|got|] == got
    requires forall i :: |got| <= i < |all| ==> all[i] == Silence(channels)
    ensures all == Fill(got, |all|, channels).frames
  {
  }
}
