// The playback helper as a machine of interleaved steps: a reader thread that
// pushes stdin blocks into the ring and an audio callback that pops from it.
// Each event is one atomic action of one thread. A load of the other side's
// counter may return any value published since this side's previous load.
module PlaybackMachine {
  import opened RingIndex

  datatype Frame = Frame(samples: seq<real>)

  function Silence(channels: nat): Frame {
    Frame(seq(channels, _ => 0.0))
  }

  function Padded(count: nat, channels: nat): seq<Frame> {
    seq(count, _ => Silence(channels))
  }

  function Wrap64(x: nat): nat {
    x % 0x1_0000_0000_0000_0000
  }

  /** A PipeWire buffer as queued: `frames` of it, the first `got` from the ring. */
  datatype Buffer = Buffer(frames: seq<Frame>, got: nat)

  datatype Consumer =
    | Idle
    | Popping(want: nat, take: nat, start: nat, copied: seq<Frame>)
    | Padding(want: nat, got: seq<Frame>)

  datatype Producer =
    | Reading
    | Holding(block: seq<Frame>, written: nat)
    | Pushing(block: seq<Frame>, written: nat, put: nat, start: nat, copied: nat)
    | Finished

  /** `buf`, `head`, `tail` and `underruns` are the shared memory; the last five
      fields are history variables that only the statements below read. */
  datatype State = State(
    channels: nat, cap: nat, buf: seq<Frame>, head: nat, tail: nat, underruns: nat,
    consumer: Consumer, producer: Producer,
    stdin: seq<Frame>, pushed: seq<Frame>, popped: nat, output: seq<Buffer>,
    seenHead: nat, seenTail: nat)

  datatype Event =
    | StdinRead(block: seq<Frame>)
    | StdinEnd
    | PushStart(observed: nat)
    | PushCopy
    | PushPublish
    | Callback(maxFrames: nat, requested: nat, observed: nat)
    | PopCopy
    | PopPublish
    | FinishCallback

  function Init(channels: nat, cap: nat): State {
    State(channels, cap, seq(cap, _ => Silence(channels)), 0, 0, 0, Idle, Reading, [], [], 0, [], 0, 0)
  }

  // ---------- the reader thread ----------

  function Read(s: State, block: seq<Frame>): State {
    if s.producer.Reading? && block != []
    then s.(producer := Holding(block, 0), stdin := s.stdin + block)
    else s
  }

  function EndOfInput(s: State): State {
    if s.producer.Reading? then s.(producer := Finished) else s
  }

  function StartPush(s: State, observed: nat): State {
    if s.producer.Holding? && s.producer.written < |s.producer.block|
       && s.seenHead <= observed <= s.popped && s.cap > 0
    then
      var p := s.producer;
      var avail := (s.cap - 1) - Occupied(Wrap(observed), s.tail, s.cap);
      var put := if |p.block| - p.written < avail then |p.block| - p.written else avail;
      if put <= 0 then s.(seenHead := observed)
      else s.(seenHead := observed, producer := Pushing(p.block, p.written, put, s.tail, 0))
    else s
  }

  function CopyIn(s: State): State {
    if s.producer.Pushing? && s.producer.copied < s.producer.put && s.cap > 0
    then
      var p := s.producer;
      var slot := TransferSlot(p.start, p.put, s.cap, p.copied);
      if 0 <= slot < |s.buf| && p.written + p.copied < |p.block|
      then s.(buf := s.buf[slot := p.block[p.written + p.copied]], producer := p.(copied := p.copied + 1))
      else s
    else s
  }

  function PublishPush(s: State): State {
    if s.producer.Pushing? && s.producer.copied == s.producer.put
       && s.producer.written + s.producer.put <= |s.producer.block|
    then
      var p := s.producer;
      var written := p.written + p.put;
      s.(tail := Wrap(p.start + p.put),
         pushed := s.pushed + p.block[p.written..written],
         producer := if written == |p.block| then Reading else Holding(p.block, written))
    else s
  }

  // ---------- the audio callback ----------

  /** Frames the driver asks for: `requested` when it is set and fits. */
  function Wanted(maxFrames: nat, requested: nat): nat {
    if 0 < requested < maxFrames then requested else maxFrames
  }

  function StartCallback(s: State, maxFrames: nat, requested: nat, observed: nat): State {
    if s.consumer.Idle? && s.seenTail <= observed <= |s.pushed| && s.cap > 0
    then
      var want := Wanted(maxFrames, requested);
      var take := Min(want, Occupied(s.head, Wrap(observed), s.cap));
      s.(seenTail := observed,
         consumer := if take == 0 then Padding(want, []) else Popping(want, take, s.head, []))
    else s
  }

  function CopyOut(s: State): State {
    if s.consumer.Popping? && |s.consumer.copied| < s.consumer.take && s.cap > 0
    then
      var c := s.consumer;
      var slot := TransferSlot(c.start, c.take, s.cap, |c.copied|);
      if 0 <= slot < |s.buf| then s.(consumer := c.(copied := c.copied + [s.buf[slot]])) else s
    else s
  }

  function PublishPop(s: State): State {
    if s.consumer.Popping? && |s.consumer.copied| == s.consumer.take
    then
      var c := s.consumer;
      s.(head := Wrap(c.start + c.take), popped := s.popped + c.take, consumer := Padding(c.want, c.copied))
    else s
  }

  /** The popped frames with silence after them. */
  function Fill(got: seq<Frame>, want: nat, channels: nat): Buffer {
    Buffer(got + Padded(if |got| <= want then want - |got| else 0, channels), |got|)
  }

  /** Zero-fill after the popped frames, count a short buffer, queue it. */
  function QueueBuffer(s: State): State {
    if s.consumer.Padding? && |s.consumer.got| <= s.consumer.want
    then
      var c := s.consumer;
      s.(output := s.output + [Fill(c.got, c.want, s.channels)],
         underruns := if |c.got| < c.want then Wrap64(s.underruns + 1) else s.underruns,
         consumer := Idle)
    else s
  }

  function Apply(s: State, e: Event): State {
    match e
    case StdinRead(block) => Read(s, block)
    case StdinEnd => EndOfInput(s)
    case PushStart(observed) => StartPush(s, observed)
    case PushCopy => CopyIn(s)
    case PushPublish => PublishPush(s)
    case Callback(maxFrames, requested, observed) => StartCallback(s, maxFrames, requested, observed)
    case PopCopy => CopyOut(s)
    case PopPublish => PublishPop(s)
    case FinishCallback => QueueBuffer(s)
  }

  /** Any run: any events in any order; an event whose thread is not at that
      point changes nothing. */
  function Run(s: State, events: seq<Event>): State {
    if events == [] then s
    else Apply(Run(s, events[..|events| - 1]), events[|events| - 1])
  }

  /** A run is its events, one after the other. */
  lemma {:induction false} RunSplits(s: State, e: Event, a: seq<Event>, b: seq<Event>)
    ensures Run(s, [e]) == Apply(s, e)
    ensures Run(s, a + b) == Run(Run(s, a), b)
    decreases |b|
  {
    hide Apply;
    assert [e][..0] == [] && Run(s, [e][..0]) == s;
    if b == [] {
      assert a + b == a;
    } else {
      RunSplits(s, e, a, b[..|b| - 1]);
      assert (a + b)[..|a + b| - 1] == a + b[..|b| - 1];
    }
  }

  // ---------- what every step keeps ----------

  /** The counters in memory are the true totals modulo 2^32, and neither side
      is ahead of what it has seen of the other. */
  ghost predicate Counters(cap: nat, head: nat, tail: nat, seenHead: nat, popped: nat, seenTail: nat, pushed: nat) {
    && AcceptsRingFrames(cap)
    && head == Wrap(popped)
    && tail == Wrap(pushed)
    && seenHead <= popped <= seenTail <= pushed
    && pushed - seenHead <= cap - 1
  }

  /** The slots from counter value `from` on hold `frames`. */
  ghost predicate Holds(buf: seq<Frame>, from: nat, frames: seq<Frame>) {
    forall i :: 0 <= i < |frames| ==> |buf| > 0 && buf[Slot(from + i, |buf|)] == frames[i]
  }

  /** Frames the producer has copied in but not published. */
  function InPush(p: Producer): seq<Frame> {
    if p.Pushing? && p.written + p.copied <= |p.block| then p.block[p.written..p.written + p.copied] else []
  }

  /** Frames popped by the callback in progress and not queued yet. */
  function InCallback(c: Consumer): seq<Frame> {
    if c.Padding? then c.got else []
  }

  /** The part of the reader's block that is not published yet. */
  function Unpushed(p: Producer): seq<Frame> {
    match p
    case Holding(block, written) => if written <= |block| then block[written..] else []
    case Pushing(block, written, _, _, _) => if written <= |block| then block[written..] else []
    case _ => []
  }

  ghost predicate ConsumerInv(c: Consumer, head: nat, popped: nat, seenTail: nat, pushed: seq<Frame>) {
    match c
    case Idle => true
    case Popping(want, take, start, copied) =>
      && start == head
      && |copied| <= take <= want
      && popped + take <= seenTail <= |pushed|
      && copied == pushed[popped..popped + |copied|]
    case Padding(want, got) => |got| <= want
  }

  ghost predicate ProducerInv(p: Producer, tail: nat, room: int) {
    match p
    case Holding(block, written) => written < |block|
    case Pushing(block, written, put, start, copied) =>
      && start == tail
      && copied <= put <= room
      && 0 < put
      && written + put <= |block|
    case _ => true
  }

  function Delivered(output: seq<Buffer>): seq<Frame> {
    if output == [] then []
    else
      var b := output[|output| - 1];
      Delivered(output[..|output| - 1]) + (if b.got <= |b.frames| then b.frames[..b.got] else b.frames)
  }

  function ShortBuffers(output: seq<Buffer>): nat {
    if output == [] then 0
    else
      var b := output[|output| - 1];
      ShortBuffers(output[..|output| - 1]) + (if b.got < |b.frames| then 1 else 0)
  }

  predicate SilentTail(b: Buffer, channels: nat) {
    b.got <= |b.frames| && forall i :: b.got <= i < |b.frames| ==> b.frames[i] == Silence(channels)
  }

  ghost predicate OutputInv(output: seq<Buffer>, channels: nat, underruns: nat) {
    && (forall b :: b in output ==> SilentTail(b, channels))
    && underruns == Wrap64(ShortBuffers(output))
  }

  ghost predicate Inv(s: State) {
    && Counters(s.cap, s.head, s.tail, s.seenHead, s.popped, s.seenTail, |s.pushed|)
    && |s.buf| == s.cap
    && Holds(s.buf, s.popped, s.pushed[s.popped..] + InPush(s.producer))
    && ConsumerInv(s.consumer, s.head, s.popped, s.seenTail, s.pushed)
    && ProducerInv(s.producer, s.tail, s.cap - 1 - (|s.pushed| - s.seenHead))
    && s.stdin == s.pushed + Unpushed(s.producer)
    && s.pushed[..s.popped] == Delivered(s.output) + InCallback(s.consumer)
    && OutputInv(s.output, s.channels, s.underruns)
  }

  lemma StartPushKeeps(s: State, observed: nat)
    requires Inv(s)
    ensures Inv(StartPush(s, observed))
  {
    hide Slot, Wrap, Occupied, TransferSlot, BitAnd, AcceptsRingFrames, Delivered, ShortBuffers;
    if s.producer.Holding? && s.seenHead <= observed <= s.popped {
      OccupiedIsDifference(observed, |s.pushed|, s.cap);
      assert InPush(StartPush(s, observed).producer) == [];
    }
  }

  lemma HoldsOneMore(buf: seq<Frame>, from: nat, frames: seq<Frame>, x: Frame)
    requires |frames| < |buf| && Holds(buf, from, frames)
    ensures Holds(buf[Slot(from + |frames|, |buf|) := x], from, frames + [x])
  {
    var n := |frames|;
    var buf' := buf[Slot(from + n, |buf|) := x];
    forall i | 0 <= i < n + 1 ensures buf'[Slot(from + i, |buf|)] == (frames + [x])[i] {
      if i < n {
        SlotsDistinct(from + i, from + n, |buf|);
        assert buf[Slot(from + i, |buf|)] == frames[i];
      }
    }
  }

  lemma HoldsDrop(buf: seq<Frame>, from: nat, frames: seq<Frame>, n: nat)
    requires |buf| > 0 && n <= |frames| && Holds(buf, from, frames)
    ensures Holds(buf, from + n, frames[n..])
  {
    forall i | 0 <= i < |frames| - n ensures buf[Slot(from + n + i, |buf|)] == frames[n..][i] {
      assert frames[n + i] == buf[Slot(from + (n + i), |buf|)];
    }
  }

  lemma CopyInKeeps(s: State)
    requires Inv(s)
    ensures Inv(CopyIn(s))
  {
    hide Slot, Wrap, Occupied, TransferSlot, BitAnd, AcceptsRingFrames, Delivered, ShortBuffers;
    if s.producer.Pushing? && s.producer.copied < s.producer.put {
      var p, s' := s.producer, CopyIn(s);
      var frames := s.pushed[s.popped..] + InPush(p);
      var x := p.block[p.written + p.copied];
      TransferSlotIsModulo(|s.pushed|, p.put, s.cap, p.copied);
      HoldsOneMore(s.buf, s.popped, frames, x);
      assert InPush(s'.producer) == InPush(p) + [x];
      assert s.pushed[s.popped..] + InPush(s'.producer) == frames + [x];
    }
  }

  lemma PublishedView(pushed: seq<Frame>, block: seq<Frame>, popped: nat, from: nat, put: nat)
    requires popped <= |pushed| && from + put <= |block|
    ensures var p' := pushed + block[from..from + put];
      && p'[popped..] == pushed[popped..] + block[from..from + put]
      && p' + block[from + put..] == pushed + block[from..]
      && p'[..popped] == pushed[..popped]
      && forall n | popped <= n <= |pushed| :: p'[popped..n] == pushed[popped..n]
  {
    assert block[from..] == block[from..from + put] + block[from + put..];
  }

  lemma PublishPushKeeps(s: State)
    requires Inv(s)
    ensures Inv(PublishPush(s))
  {
    hide Slot, Wrap, Occupied, TransferSlot, BitAnd, AcceptsRingFrames, Delivered, ShortBuffers;
    if s.producer.Pushing? && s.producer.copied == s.producer.put {
      var p, s' := s.producer, PublishPush(s);
      WrapAdd(|s.pushed|, p.put);
      PublishedView(s.pushed, p.block, s.popped, p.written, p.put);
      assert InPush(s'.producer) == [];
      assert s'.pushed[s.popped..] + [] == s.pushed[s.popped..] + InPush(p);
      assert Unpushed(s'.producer) == p.block[p.written + p.put..];
    }
  }

  lemma StartCallbackKeeps(s: State, maxFrames: nat, requested: nat, observed: nat)
    requires Inv(s)
    ensures Inv(StartCallback(s, maxFrames, requested, observed))
  {
    hide Slot, Wrap, Occupied, TransferSlot, BitAnd, AcceptsRingFrames, Delivered, ShortBuffers;
    if s.consumer.Idle? && s.seenTail <= observed <= |s.pushed| {
      OccupiedIsDifference(s.popped, observed, s.cap);
    }
  }

  lemma CopyOutKeeps(s: State)
    requires Inv(s)
    ensures Inv(CopyOut(s))
    ensures s.consumer.Popping? && |s.consumer.copied| < s.consumer.take ==>
      var n := |s.consumer.copied|;
      && s.popped + n < |s.pushed|
      && CopyOut(s) == s.(consumer := s.consumer.(copied := s.pushed[s.popped..s.popped + n + 1]))
  {
    hide Slot, Wrap, Occupied, TransferSlot, BitAnd, AcceptsRingFrames, Delivered, ShortBuffers;
    if s.consumer.Popping? && |s.consumer.copied| < s.consumer.take {
      var n := |s.consumer.copied|;
      TransferSlotIsModulo(s.popped, s.consumer.take, s.cap, n);
      assert s.buf[Slot(s.popped + n, s.cap)] == (s.pushed[s.popped..] + InPush(s.producer))[n];
      assert s.pushed[s.popped..s.popped + n + 1] == s.pushed[s.popped..s.popped + n] + [s.pushed[s.popped + n]];
    }
  }

  lemma PublishPopKeeps(s: State)
    requires Inv(s)
    ensures Inv(PublishPop(s))
  {
    hide Slot, Wrap, Occupied, TransferSlot, BitAnd, AcceptsRingFrames, Delivered, ShortBuffers;
    if s.consumer.Popping? && |s.consumer.copied| == s.consumer.take {
      var take := s.consumer.take;
      WrapAdd(s.popped, take);
      HoldsDrop(s.buf, s.popped, s.pushed[s.popped..] + InPush(s.producer), take);
      assert (s.pushed[s.popped..] + InPush(s.producer))[take..] == s.pushed[s.popped + take..] + InPush(s.producer);
      assert s.pushed[..s.popped + take] == s.pushed[..s.popped] + s.consumer.copied;
    }
  }

  lemma DeliveredSnoc(output: seq<Buffer>, b: Buffer)
    ensures Delivered(output + [b]) == Delivered(output) + (if b.got <= |b.frames| then b.frames[..b.got] else b.frames)
    ensures ShortBuffers(output + [b]) == ShortBuffers(output) + (if b.got < |b.frames| then 1 else 0)
  {
    assert (output + [b])[..|output|] == output;
  }

  lemma Wrap64Add(n: nat)
    ensures Wrap64(Wrap64(n) + 1) == Wrap64(n + 1)
  {
  }

  lemma QueuedOutput(output: seq<Buffer>, got: seq<Frame>, want: nat, channels: nat, underruns: nat)
    requires OutputInv(output, channels, underruns) && |got| <= want
    ensures OutputInv(output + [Fill(got, want, channels)], channels,
                      if |got| < want then Wrap64(underruns + 1) else underruns)
    ensures Delivered(output + [Fill(got, want, channels)]) == Delivered(output) + got
  {
    hide Delivered, ShortBuffers, Wrap64;
    var b := Fill(got, want, channels);
    DeliveredSnoc(output, b);
    Wrap64Add(ShortBuffers(output));
    assert b.frames[..b.got] == got;
  }

  lemma QueueBufferKeeps(s: State)
    requires Inv(s)
    ensures Inv(QueueBuffer(s))
  {
    hide Counters, Holds, OutputInv, Fill, Delivered, Wrap64;
    if s.consumer.Padding? {
      QueuedOutput(s.output, s.consumer.got, s.consumer.want, s.channels, s.underruns);
    }
  }

  lemma ApplyKeeps(s: State, e: Event)
    requires Inv(s)
    ensures Inv(Apply(s, e))
  {
    match e
    case StdinRead(block) =>
    case StdinEnd =>
    case PushStart(observed) => StartPushKeeps(s, observed);
    case PushCopy => CopyInKeeps(s);
    case PushPublish => PublishPushKeeps(s);
    case Callback(maxFrames, requested, observed) => StartCallbackKeeps(s, maxFrames, requested, observed);
    case PopCopy => CopyOutKeeps(s);
    case PopPublish => PublishPopKeeps(s);
    case FinishCallback => QueueBufferKeeps(s);
  }

  lemma {:induction false} RunKeeps(channels: nat, cap: nat, events: seq<Event>)
    requires AcceptsRingFrames(cap)
    ensures Inv(Run(Init(channels, cap), events))
  {
    if events != [] {
      RunKeeps(channels, cap, events[..|events| - 1]);
      ApplyKeeps(Run(Init(channels, cap), events[..|events| - 1]), events[|events| - 1]);
    }
  }

  // ---------- whole runs ----------

  /** The ring's contents as the consumer would read them out of shared memory. */
  function RingContents(buf: seq<Frame>, head: nat, tail: nat): seq<Frame>
    requires |buf| > 0
  {
    seq(Occupied(head, tail, |buf|), i requires 0 <= i => buf[Slot(head + i, |buf|)])
  }

  lemma SlotOfWrapped(x: nat, i: nat, cap: nat)
    requires AcceptsRingFrames(cap)
    ensures Slot(Wrap(x) + i, cap) == Slot(x + i, cap)
  {
    WrapThenReduce(Wrap(x) + i, cap);
    WrapThenReduce(x + i, cap);
    WrapAdd(x, i);
  }

  lemma SlotBelow(i: nat, cap: nat)
    requires cap > 0
    ensures Slot(i, cap) < cap
  {
  }

  lemma ContentsArePending(s: State)
    requires Inv(s)
    ensures RingContents(s.buf, s.head, s.tail) == s.pushed[s.popped..]
    ensures Occupied(s.head, s.tail, s.cap) == |s.pushed| - s.popped < s.cap
  {
    hide Slot, Wrap, Occupied, BitAnd, AcceptsRingFrames;
    OccupiedIsDifference(s.popped, |s.pushed|, s.cap);
    forall i | 0 <= i < |s.pushed| - s.popped
      ensures Slot(s.head + i, s.cap) < s.cap && s.buf[Slot(s.head + i, s.cap)] == s.pushed[s.popped..][i]
    {
      SlotOfWrapped(s.popped, i, s.cap);
      SlotBelow(s.popped + i, s.cap);
      assert s.buf[Slot(s.popped + i, s.cap)] == (s.pushed[s.popped..] + InPush(s.producer))[i];
    }
  }

  /** In every run, across counter wrap and with stale loads, the ring is a
      FIFO: what callbacks took is what was pushed first, in order, and shared
      memory holds exactly the rest. */
  lemma RingRefinesFifo(channels: nat, cap: nat, events: seq<Event>)
    requires AcceptsRingFrames(cap)
    ensures var s := Run(Init(channels, cap), events);
      && |s.buf| == cap
      && s.popped <= |s.pushed|
      && Occupied(s.head, s.tail, cap) == |s.pushed| - s.popped <= cap - 1
      && Delivered(s.output) + InCallback(s.consumer) == s.pushed[..s.popped]
      && RingContents(s.buf, s.head, s.tail) == s.pushed[s.popped..]
  {
    RunKeeps(channels, cap, events);
    ContentsArePending(Run(Init(channels, cap), events));
    RunFixesCapacity(Init(channels, cap), events);
  }

  lemma {:induction false} RunFixesCapacity(s: State, events: seq<Event>)
    ensures Run(s, events).cap == s.cap && Run(s, events).channels == s.channels
  {
    if events != [] {
      RunFixesCapacity(s, events[..|events| - 1]);
    }
  }

  lemma CopySlotsDisjoint(s: State, i: nat, j: nat)
    requires Inv(s)
    requires s.consumer.Popping? && i < s.consumer.take && s.producer.Pushing? && j < s.producer.put
    ensures TransferSlot(s.consumer.start, s.consumer.take, s.cap, i)
         != TransferSlot(s.producer.start, s.producer.put, s.cap, j)
  {
    hide TransferSlot, Wrap, Slot, BitAnd, Holds;
    TransferSlotIsModulo(s.popped, s.consumer.take, s.cap, i);
    TransferSlotIsModulo(|s.pushed|, s.producer.put, s.cap, j);
    SlotsDistinct(s.popped + i, |s.pushed| + j, s.cap);
  }

  /** While both sides copy, no slot of one copy is a slot of the other. */
  lemma CopiesNeverOverlap(channels: nat, cap: nat, events: seq<Event>)
    requires AcceptsRingFrames(cap)
    ensures var s := Run(Init(channels, cap), events);
      s.consumer.Popping? && s.producer.Pushing? ==>
        forall i: nat, j: nat | i < s.consumer.take && j < s.producer.put ::
          TransferSlot(s.consumer.start, s.consumer.take, cap, i) != TransferSlot(s.producer.start, s.producer.put, cap, j)
  {
    RunKeeps(channels, cap, events);
    RunFixesCapacity(Init(channels, cap), events);
    hide TransferSlot, Run, Inv;
    var s := Run(Init(channels, cap), events);
    if s.consumer.Popping? && s.producer.Pushing? {
      forall i: nat, j: nat | i < s.consumer.take && j < s.producer.put
        ensures TransferSlot(s.consumer.start, s.consumer.take, cap, i) != TransferSlot(s.producer.start, s.producer.put, cap, j)
      {
        CopySlotsDisjoint(s, i, j);
      }
    }
  }

  /** Frames given to PipeWire, with the padding removed, are a prefix of the
      frames read from stdin; the rest is in the callback under way, in shared
      memory, or in the reader's block. Silence only ever ends a buffer, and
      the counter is the number of short buffers. */
  lemma HelperConservesFrames(channels: nat, cap: nat, events: seq<Event>)
    requires AcceptsRingFrames(cap)
    ensures var s := Run(Init(channels, cap), events);
      && |s.buf| == cap
      && s.stdin == Delivered(s.output) + InCallback(s.consumer) + RingContents(s.buf, s.head, s.tail) + Unpushed(s.producer)
      && (forall b :: b in s.output ==> SilentTail(b, channels))
      && s.underruns == Wrap64(ShortBuffers(s.output))
  {
    hide Run, Delivered, ShortBuffers, SilentTail, RingContents, Occupied, AcceptsRingFrames, Counters, Holds, ConsumerInv, ProducerInv;
    RingRefinesFifo(channels, cap, events);
    RunKeeps(channels, cap, events);
    RunFixesCapacity(Init(channels, cap), events);
    var s := Run(Init(channels, cap), events);
    assert s.pushed == s.pushed[..s.popped] + s.pushed[s.popped..];
  }

  // ---------- what one callback delivers, whatever interleaves ----------

  /** The buffer of a callback: as many frames as the driver asked for, or as fit
      when it asked for more or for nothing; first `got`, then silence. */
  ghost predicate BufferOf(b: Buffer, got: seq<Frame>, maxFrames: nat, requested: nat, channels: nat) {
    && |b.frames| == (if 0 < requested < maxFrames then requested else maxFrames)
    && b.got == |got| <= |b.frames| && b.frames[..b.got] == got
    && forall i :: b.got <= i < |b.frames| ==>
         |b.frames[i].samples| == channels && forall c :: 0 <= c < channels ==> b.frames[i].samples[c] == 0.0
  }

  lemma FillIs(got: seq<Frame>, maxFrames: nat, requested: nat, channels: nat)
    requires |got| <= Wanted(maxFrames, requested)
    ensures BufferOf(Fill(got, Wanted(maxFrames, requested), channels), got, maxFrames, requested, channels)
  {
  }

  /** The n-th buffer is queued, or the callback in progress will queue it. */
  ghost predicate UnderWay(s: State, n: nat, want: nat, frames: seq<Frame>, b: Buffer) {
    || (|s.output| > n && s.output[n] == b)
    || (|s.output| == n && b == Fill(frames, want, s.channels)
        && match s.consumer
           case Idle => false
           case Popping(w, take, _, copied) =>
             && w == want && take == |frames| && s.popped + take <= |s.pushed|
             && s.pushed[s.popped..s.popped + take] == frames
           case Padding(w, got) => w == want && got == frames)
  }

  lemma UnderWayStep(s: State, n: nat, want: nat, frames: seq<Frame>, b: Buffer, e: Event)
    requires Inv(s) && UnderWay(s, n, want, frames, b) && |frames| <= want
    ensures UnderWay(Apply(s, e), n, want, frames, b)
  {
    hide Holds, OutputInv, Counters, ProducerInv, Fill, Wanted, TransferSlot, Occupied, Wrap, Delivered;
    match e
    case Callback(maxFrames, requested, observed) =>
    case PopCopy => PopStepKeeps(s, n, want, frames, b);
    case PopPublish => PublishStepKeeps(s, n, want, frames, b);
    case FinishCallback =>
    case _ => ReaderStepKeeps(s, n, want, frames, b, e);
  }

  lemma PopStepKeeps(s: State, n: nat, want: nat, frames: seq<Frame>, b: Buffer)
    requires UnderWay(s, n, want, frames, b)
    ensures UnderWay(CopyOut(s), n, want, frames, b)
  {
    hide Fill, TransferSlot;
  }

  lemma PublishStepKeeps(s: State, n: nat, want: nat, frames: seq<Frame>, b: Buffer)
    requires Inv(s) && UnderWay(s, n, want, frames, b)
    ensures UnderWay(PublishPop(s), n, want, frames, b)
  {
    hide Holds, OutputInv, Counters, ProducerInv, Fill, Wrap, Delivered;
  }

  lemma ReaderStepKeeps(s: State, n: nat, want: nat, frames: seq<Frame>, b: Buffer, e: Event)
    requires UnderWay(s, n, want, frames, b)
    requires e.StdinRead? || e.StdinEnd? || e.PushStart? || e.PushCopy? || e.PushPublish?
    ensures UnderWay(Apply(s, e), n, want, frames, b)
  {
    hide Fill, Occupied, Wrap, TransferSlot;
  }

  lemma {:induction false} UnderWayRun(s: State, n: nat, want: nat, frames: seq<Frame>, b: Buffer, events: seq<Event>)
    requires Inv(s) && UnderWay(s, n, want, frames, b) && |frames| <= want
    ensures UnderWay(Run(s, events), n, want, frames, b)
  {
    hide Inv, UnderWay, Apply;
    if events != [] {
      var init := events[..|events| - 1];
      UnderWayRun(s, n, want, frames, b, init);
      RunKeepsFrom(s, init);
      UnderWayStep(Run(s, init), n, want, frames, b, events[|events| - 1]);
    }
  }

  lemma {:induction false} RunKeepsFrom(s: State, events: seq<Event>)
    requires Inv(s)
    ensures Inv(Run(s, events))
  {
    hide Inv, Apply;
    if events != [] {
      RunKeepsFrom(s, events[..|events| - 1]);
      ApplyKeeps(Run(s, events[..|events| - 1]), events[|events| - 1]);
    }
  }

  lemma CallbackBegins(s: State, maxFrames: nat, requested: nat, observed: nat) returns (frames: seq<Frame>)
    requires Inv(s) && s.consumer.Idle? && s.seenTail <= observed <= |s.pushed|
    ensures s.popped <= observed
    ensures var want := Wanted(maxFrames, requested);
      && frames == s.pushed[s.popped..s.popped + if want < observed - s.popped then want else observed - s.popped]
      && UnderWay(Apply(s, Callback(maxFrames, requested, observed)), |s.output|, want, frames, Fill(frames, want, s.channels))
  {
    OccupiedIsDifference(s.popped, observed, s.cap);
    var want := Wanted(maxFrames, requested);
    frames := s.pushed[s.popped..s.popped + if want < observed - s.popped then want else observed - s.popped];
    hide Wanted, Occupied, Wrap, Fill, Holds, OutputInv, ProducerInv, Delivered;
  }

  /** In every run, a callback that sees `observed` frames pushed so far, however
      stale that is, and whatever interleaves from then on, queues next one buffer
      of as many frames as the driver asked for: the oldest frames it could see,
      as many as fit, and silence after them. */
  lemma CallbackDelivers(channels: nat, cap: nat, before: seq<Event>, maxFrames: nat, requested: nat, observed: nat, after: seq<Event>)
    requires AcceptsRingFrames(cap)
    requires var s := Run(Init(channels, cap), before); s.consumer.Idle? && s.seenTail <= observed <= |s.pushed|
    ensures var s := Run(Init(channels, cap), before);
      var t := Run(Apply(s, Callback(maxFrames, requested, observed)), after);
      var want := if 0 < requested < maxFrames then requested else maxFrames;
      && s.popped <= observed
      && if |t.output| > |s.output| then
           BufferOf(t.output[|s.output|], s.pushed[s.popped..s.popped + if want < observed - s.popped then want else observed - s.popped],
                    maxFrames, requested, channels)
         else !t.consumer.Idle?
  {
    hide *;
    var s := Run(Init(channels, cap), before);
    RunKeeps(channels, cap, before);
    RunFixesCapacity(Init(channels, cap), before);
    InitIs(channels, cap);
    var frames := CallbackBegins(s, maxFrames, requested, observed);
    ApplyKeeps(s, Callback(maxFrames, requested, observed));
    var begun, want := Apply(s, Callback(maxFrames, requested, observed)), Wanted(maxFrames, requested);
    WantedIs(maxFrames, requested);
    var b := Fill(frames, want, s.channels);
    UnderWayRun(begun, |s.output|, want, frames, b, after);
    UnderWayMeans(Run(begun, after), |s.output|, want, frames, b);
    FillIs(frames, maxFrames, requested, channels);
  }

  lemma InitIs(channels: nat, cap: nat)
    ensures Init(channels, cap).channels == channels && Init(channels, cap).cap == cap
  {
  }

  lemma UnderWayMeans(s: State, n: nat, want: nat, frames: seq<Frame>, b: Buffer)
    requires UnderWay(s, n, want, frames, b)
    ensures if |s.output| > n then s.output[n] == b else !s.consumer.Idle?
  {
  }

  lemma WantedIs(maxFrames: nat, requested: nat)
    ensures requested == 0 ==> Wanted(maxFrames, requested) == maxFrames
    ensures requested > 0 ==> Wanted(maxFrames, requested) == if requested < maxFrames then requested else maxFrames
  {
  }

  // ---------- what one push delivers, whatever interleaves ----------

  /** The frames are published from position n on, or the push in progress will
      publish them. */
  ghost predicate PushUnderWay(s: State, n: nat, frames: seq<Frame>) {
    || (|s.pushed| >= n + |frames| && s.pushed[n..n + |frames|] == frames)
    || (|s.pushed| == n && s.producer.Pushing? && s.producer.put == |frames|
        && s.producer.written + s.producer.put <= |s.producer.block|
        && s.producer.block[s.producer.written..s.producer.written + s.producer.put] == frames)
  }

  lemma PushUnderWayStep(s: State, n: nat, frames: seq<Frame>, e: Event)
    requires Inv(s) && PushUnderWay(s, n, frames)
    ensures PushUnderWay(Apply(s, e), n, frames)
  {
    hide Inv, Fill, Wanted, TransferSlot, Occupied, Wrap, Delivered;
  }

  lemma {:induction false} PushUnderWayRun(s: State, n: nat, frames: seq<Frame>, events: seq<Event>)
    requires Inv(s) && PushUnderWay(s, n, frames)
    ensures PushUnderWay(Run(s, events), n, frames)
  {
    hide Inv, PushUnderWay, Apply;
    if events != [] {
      var init := events[..|events| - 1];
      PushUnderWayRun(s, n, frames, init);
      RunKeepsFrom(s, init);
      PushUnderWayStep(Run(s, init), n, frames, events[|events| - 1]);
    }
  }

  lemma PushBegins(s: State, observed: nat) returns (put: int)
    requires Inv(s) && s.producer.Holding? && s.seenHead <= observed <= s.popped
    ensures var rest, room := |s.producer.block| - s.producer.written, s.cap - 1 - (|s.pushed| - observed);
      && 0 <= put == (if rest < room then rest else room) && s.producer.written + put <= |s.producer.block|
      && (put == 0 ==> Apply(s, PushStart(observed)) == s.(seenHead := observed))
      && (put > 0 ==> PushUnderWay(Apply(s, PushStart(observed)), |s.pushed|,
                                   s.producer.block[s.producer.written..s.producer.written + put]))
  {
    OccupiedIsDifference(observed, |s.pushed|, s.cap);
    var rest, room := |s.producer.block| - s.producer.written, s.cap - 1 - (|s.pushed| - observed);
    put := if rest < room then rest else room;
    hide Occupied, Wrap, Holds, OutputInv, ConsumerInv, Delivered;
  }

  /** In every run, a push that sees `observed` frames popped so far, however
      stale that is, and whatever interleaves from then on, publishes all at once
      the next frames of its block: as many as are left and as fit by that view. */
  lemma PushDelivers(channels: nat, cap: nat, before: seq<Event>, observed: nat, after: seq<Event>)
    requires AcceptsRingFrames(cap)
    requires var s := Run(Init(channels, cap), before); s.producer.Holding? && s.seenHead <= observed <= s.popped
    ensures var s := Run(Init(channels, cap), before);
      var begun := Apply(s, PushStart(observed)); var t := Run(begun, after);
      var rest, room := |s.producer.block| - s.producer.written, cap - 1 - (|s.pushed| - observed);
      var put := if rest < room then rest else room;
      && 0 <= put && s.producer.written + put <= |s.producer.block|
      && (put == 0 ==> begun == s.(seenHead := observed))
      && (put > 0 ==>
            if |t.pushed| > |s.pushed| then
              && |t.pushed| >= |s.pushed| + put
              && t.pushed[|s.pushed|..|s.pushed| + put] == s.producer.block[s.producer.written..s.producer.written + put]
            else t.producer.Pushing?)
  {
    hide *;
    var s := Run(Init(channels, cap), before);
    RunKeeps(channels, cap, before);
    RunFixesCapacity(Init(channels, cap), before);
    InitIs(channels, cap);
    var put := PushBegins(s, observed);
    if put > 0 {
      var frames := s.producer.block[s.producer.written..s.producer.written + put];
      ApplyKeeps(s, PushStart(observed));
      var begun := Apply(s, PushStart(observed));
      PushUnderWayRun(begun, |s.pushed|, frames, after);
      PushUnderWayMeans(Run(begun, after), |s.pushed|, frames);
    }
  }

  lemma PushUnderWayMeans(s: State, n: nat, frames: seq<Frame>)
    requires PushUnderWay(s, n, frames) && frames != []
    ensures if |s.pushed| > n then |s.pushed| >= n + |frames| && s.pushed[n..n + |frames|] == frames else s.producer.Pushing?
  {
  }

  /** The reader takes a block whenever it has none, up to the end of its input,
      after which it takes no more. */
  lemma ReaderTakes(s: State, block: seq<Frame>, after: seq<Event>)
    requires s.producer.Reading? && block != []
    ensures Apply(s, StdinRead(block)).stdin == s.stdin + block
    ensures Unpushed(Apply(s, StdinRead(block)).producer) == block
    ensures var t := Run(Apply(s, StdinEnd), after); t.producer.Finished? && t.stdin == s.stdin
  {
    FinishedStays(Apply(s, StdinEnd), after);
  }

  lemma {:induction false} FinishedStays(s: State, events: seq<Event>)
    requires s.producer.Finished?
    ensures Run(s, events).producer.Finished? && Run(s, events).stdin == s.stdin
  {
    if events != [] {
      FinishedStays(s, events[..|events| - 1]);
    }
  }

  // ---------- one callback with nothing in between ----------

  function CopyOutMany(s: State, n: nat): State {
    if n == 0 then s else CopyOut(CopyOutMany(s, n - 1))
  }

  lemma {:induction false} CopyOutManyCopies(s: State, n: nat)
    requires Inv(s) && s.consumer.Popping? && s.consumer.copied == [] && n <= s.consumer.take
    ensures Inv(CopyOutMany(s, n)) && s.popped + n <= |s.pushed|
    ensures CopyOutMany(s, n) == s.(consumer := s.consumer.(copied := s.pushed[s.popped..s.popped + n]))
  {
    hide Inv, CopyOut;
    PoppedWithin(s);
    if n > 0 {
      CopyOutManyCopies(s, n - 1);
      CopyOutKeeps(CopyOutMany(s, n - 1));
    }
  }

  lemma PoppedWithin(s: State)
    requires Inv(s)
    ensures s.popped <= |s.pushed|
  {
  }

  /** Load, copy, publish, pad and queue with no step of the reader between. */
  function WholeCallback(s: State, maxFrames: nat, requested: nat): State {
    var begun := StartCallback(s, maxFrames, requested, |s.pushed|);
    QueueBuffer(if begun.consumer.Popping? then PublishPop(CopyOutMany(begun, begun.consumer.take)) else begun)
  }

  lemma WholePop(s: State)
    requires Inv(s) && s.consumer.Popping? && s.consumer.copied == []
    ensures var take := s.consumer.take;
      var s' := PublishPop(CopyOutMany(s, take));
      && Inv(s')
      && s' == s.(head := Wrap(s.consumer.start + take), popped := s.popped + take,
                  consumer := Padding(s.consumer.want, s.pushed[s.popped..s.popped + take]))
  {
    hide Inv, CopyOutMany, Wrap;
    CopyOutManyCopies(s, s.consumer.take);
    PublishPopKeeps(CopyOutMany(s, s.consumer.take));
  }

  lemma BeginCallback(s: State, maxFrames: nat, requested: nat)
    requires Inv(s) && s.consumer.Idle?
    ensures var want := Wanted(maxFrames, requested);
      var got := Min(want, |s.pushed| - s.popped);
      var begun := StartCallback(s, maxFrames, requested, |s.pushed|);
      && Inv(begun)
      && begun == s.(seenTail := |s.pushed|,
                     consumer := if got == 0 then Padding(want, []) else Popping(want, got, s.head, []))
  {
    OccupiedIsDifference(s.popped, |s.pushed|, s.cap);
    StartCallbackKeeps(s, maxFrames, requested, |s.pushed|);
  }

  lemma UpToPadding(s: State, maxFrames: nat, requested: nat) returns (padding: State)
    requires Inv(s) && s.consumer.Idle?
    ensures var want := Wanted(maxFrames, requested);
      var got := Min(want, |s.pushed| - s.popped);
      && Inv(padding)
      && padding == s.(seenTail := |s.pushed|, popped := s.popped + got, head := padding.head,
                       consumer := Padding(want, s.pushed[s.popped..s.popped + got]))
      && WholeCallback(s, maxFrames, requested) == QueueBuffer(padding)
  {
    hide CopyOutMany, PublishPop, StartCallback, QueueBuffer;
    var got := Min(Wanted(maxFrames, requested), |s.pushed| - s.popped);
    BeginCallback(s, maxFrames, requested);
    padding := StartCallback(s, maxFrames, requested, |s.pushed|);
    if got > 0 {
      WholePop(padding);
      padding := PublishPop(CopyOutMany(padding, got));
    }
  }

  lemma WholeCallbackPops(s: State, maxFrames: nat, requested: nat)
    requires Inv(s) && s.consumer.Idle?
    ensures var want := Wanted(maxFrames, requested);
      var got := Min(want, |s.pushed| - s.popped);
      var s' := WholeCallback(s, maxFrames, requested);
      && Inv(s') && s'.consumer.Idle?
      && s'.pushed == s.pushed && s'.popped == s.popped + got
      && s'.output == s.output + [Fill(s.pushed[s.popped..s.popped + got], want, s.channels)]
      && s'.underruns == (if got < want then Wrap64(s.underruns + 1) else s.underruns)
  {
    var padding := UpToPadding(s, maxFrames, requested);
    hide WholeCallback, Fill;
    QueueBufferKeeps(padding);
  }

  /** A callback that runs without interference queues the oldest frames and
      leaves the others in the ring. */
  lemma UninterruptedCallback(s: State, maxFrames: nat, requested: nat)
    requires Inv(s) && s.consumer.Idle?
    ensures var contents := RingContents(s.buf, s.head, s.tail);
      var want := Wanted(maxFrames, requested);
      var s' := WholeCallback(s, maxFrames, requested);
      && Inv(s') && s'.consumer.Idle?
      && s'.output == s.output + [Fill(contents[..Min(want, |contents|)], want, s.channels)]
      && RingContents(s'.buf, s'.head, s'.tail) == contents[Min(want, |contents|)..]
      && s'.underruns == (if |contents| < want then Wrap64(s.underruns + 1) else s.underruns)
  {
    hide WholeCallback, Fill;
    var contents := RingContents(s.buf, s.head, s.tail);
    var got := Min(Wanted(maxFrames, requested), |contents|);
    ContentsArePending(s);
    WholeCallbackPops(s, maxFrames, requested);
    ContentsArePending(WholeCallback(s, maxFrames, requested));
    assert contents[..got] == s.pushed[s.popped..s.popped + got];
  }

  // ---------- one push with nothing in between ----------

  function CopyInMany(s: State, n: nat): State {
    if n == 0 then s else CopyIn(CopyInMany(s, n - 1))
  }

  /** Load, copy and publish with no step of the callback between. */
  function WholePush(s: State): State {
    var begun := StartPush(s, s.popped);
    if begun.producer.Pushing? then PublishPush(CopyInMany(begun, begun.producer.put)) else begun
  }

  lemma CopyInAdvances(s: State)
    requires Inv(s) && s.producer.Pushing? && s.producer.copied < s.producer.put
    ensures CopyIn(s) == s.(buf := CopyIn(s).buf, producer := s.producer.(copied := s.producer.copied + 1))
  {
    hide TransferSlot, Slot, Wrap, Holds, AcceptsRingFrames;
    TransferSlotIsModulo(|s.pushed|, s.producer.put, s.cap, s.producer.copied);
  }

  lemma {:induction false} CopyInManyCopies(s: State, n: nat)
    requires Inv(s) && s.producer.Pushing? && s.producer.copied == 0 && n <= s.producer.put
    ensures Inv(CopyInMany(s, n))
    ensures CopyInMany(s, n) == s.(buf := CopyInMany(s, n).buf, producer := s.producer.(copied := n))
  {
    hide Inv, CopyIn;
    if n > 0 {
      CopyInManyCopies(s, n - 1);
      CopyInKeeps(CopyInMany(s, n - 1));
      CopyInAdvances(CopyInMany(s, n - 1));
    }
  }

  lemma BeginPush(s: State)
    requires Inv(s) && s.producer.Holding?
    ensures var remaining := |s.producer.block| - s.producer.written;
      var room := s.cap - 1 - (|s.pushed| - s.popped);
      var begun := StartPush(s, s.popped);
      && remaining > 0 && room >= 0 && Inv(begun)
      && begun == s.(seenHead := s.popped, producer :=
           if room == 0 then s.producer
           else Pushing(s.producer.block, s.producer.written, Min(remaining, room), s.tail, 0))
  {
    OccupiedIsDifference(s.popped, |s.pushed|, s.cap);
    hide Occupied, Wrap, Holds, AcceptsRingFrames;
    StartPushKeeps(s, s.popped);
  }

  lemma PushEffect(s: State)
    requires Inv(s) && s.producer.Holding?
    ensures var rest := Unpushed(s.producer);
      var room := s.cap - 1 - (|s.pushed| - s.popped);
      var s' := WholePush(s);
      && 0 <= room && 0 < |rest|
      && Inv(s') && s'.popped == s.popped
      && s'.pushed == s.pushed + rest[..Min(|rest|, room)]
      && Unpushed(s'.producer) == rest[Min(|rest|, room)..]
  {
    hide Inv, StartPush, CopyInMany, CopyIn, PublishPush;
    BeginPush(s);
    var begun := StartPush(s, s.popped);
    if begun.producer.Pushing? {
      PushedAll(begun);
      var p := begun.producer;
      assert p.block[p.written..][..p.put] == p.block[p.written..p.written + p.put];
      assert p.block[p.written..][p.put..] == p.block[p.written + p.put..];
    }
  }

  lemma PushedAll(s: State)
    requires Inv(s) && s.producer.Pushing? && s.producer.copied == 0
    ensures var p := s.producer; var s' := PublishPush(CopyInMany(s, p.put));
      && p.written + p.put <= |p.block|
      && Inv(s') && s'.popped == s.popped
      && s'.pushed == s.pushed + p.block[p.written..p.written + p.put]
      && Unpushed(s'.producer) == p.block[p.written + p.put..]
  {
    hide Inv, CopyInMany, CopyIn;
    var p := s.producer;
    PutFits(s);
    CopyInManyCopies(s, p.put);
    PublishPushKeeps(CopyInMany(s, p.put));
  }

  lemma PutFits(s: State)
    requires Inv(s) && s.producer.Pushing?
    ensures s.producer.written + s.producer.put <= |s.producer.block|
  {
  }

  /** A push that runs without interference appends as much of the block as
      the ring has room for; it stalls only when the ring is full. */
  lemma UninterruptedPush(s: State)
    requires Inv(s) && s.producer.Holding?
    ensures var contents := RingContents(s.buf, s.head, s.tail);
      var rest := Unpushed(s.producer);
      var room := s.cap - 1 - |contents|;
      var s' := WholePush(s);
      && 0 <= room && 0 < |rest|
      && Inv(s')
      && RingContents(s'.buf, s'.head, s'.tail) == contents + rest[..Min(|rest|, room)]
      && Unpushed(s'.producer) == rest[Min(|rest|, room)..]
  {
    hide *;
    ContentsArePending(s);
    PushEffect(s);
    ContentsArePending(WholePush(s));
    PoppedWasPushed(s);
    var rest := Unpushed(s.producer);
    var room := s.cap - 1 - (|s.pushed| - s.popped);
    TakeWithin(|rest|, room);
    assert (s.pushed + rest[..Min(|rest|, room)])[s.popped..] == s.pushed[s.popped..] + rest[..Min(|rest|, room)];
  }

  lemma PoppedWasPushed(s: State)
    requires Inv(s)
    ensures s.popped <= |s.pushed|
  {
  }

  lemma TakeWithin(a: nat, b: nat)
    ensures 0 <= Min(a, b) <= a
  {
  }
}
