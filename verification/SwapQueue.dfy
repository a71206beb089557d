// Waiting for a model swap. Callers queue requests and wait for each one's
// completion; the engine's worker tests the stop flag at the top of its loop,
// drains the queue and applies what it drained; stop's teardown and the
// worker's own exit resolve what is left. A critical section under the swap
// lock is one step, and so is each access made outside it; a run is any
// interleaving of steps.
module SwapQueue {

  /** A request is its index in the order of the calls. */
  type Request = nat

  /** How far the worker is with the head of its batch. */
  datatype Phase = Trying | Marked | Released

  /** The worker thread: none yet; waiting for the lifecycle lock; warming up
      with it held; before its loop; at the loop's top; past the flag test;
      applying a batch; in a chunk; out of the loop; having set the stop flag;
      failing what is pending; gone. */
  datatype Worker =
    | Absent | Spawned | Warming | Preparing
    | AtTop | Entered | Busy(batch: seq<Request>, phase: Phase, throwing: bool) | InChunk
    | Leaving | Resolving | Finishing | Dead

  /** A teardown, which holds the lifecycle lock from its first step to its last:
      none; the flag set; failing what is pending; waiting for the worker. */
  datatype Teardown = Idle | Flagged | Failing | Waiting

  /** Who fails the pending requests. There is one teardown at a time, and one
      worker. */
  datatype Who = ByStop | ByWorker

  /** What a failer still has to visit; `marked` once it found the head
      incomplete and has set its error. */
  datatype Failer = Failer(rest: seq<Request>, found: bool, marked: bool)

  /** `closed` is the stop flag; `stopped` is set by a finished teardown. */
  datatype State = State(
    next: nat, closed: bool, stopped: bool, teardown: Teardown, worker: Worker,
    queue: seq<Request>, outstanding: seq<Request>,
    completed: set<Request>, failed: set<Request>, applied: seq<Request>,
    failers: map<Who, Failer>)

  datatype Event =
    | Call
    | Close
    | Start
    | StopBegins
    | StopEnds
    | TakeLock
    | WarmUp(ok: bool)
    | EnterLoop
    | CrashOutright
    | TestFlag
    | Drain
    | EndChunk
    | Crash
    | SetFlag
    | TrySucceeds
    | TryFails
    | TryThrows
    | FailRest
    | Release
    | Forget
    | BeginFailing(who: Who)
    | CheckHead(who: Who)
    | MarkHead(who: Who)
    | ReleaseHead(who: Who)
    | EndFailing(who: Who)

  /** list.remove, ignoring an absent element. */
  function Without(s: seq<Request>, x: Request): (r: seq<Request>)
    ensures forall y :: y != x ==> (y in r <==> y in s)
    ensures forall y :: y in r ==> y in s
  {
    if s == [] then [] else if s[0] == x then s[1..] else [s[0]] + Without(s[1..], x)
  }

  /** Applying the head of a batch and resolving it, or failing what follows one
      that threw. The exception leaves the loop once the batch is resolved. */
  function WorkerStep(s: State, e: Event): State {
    match e
    case TrySucceeds =>
      if s.worker.Busy? && s.worker.phase.Trying? && !s.worker.throwing && s.worker.batch != []
      then s.(applied := s.applied + [s.worker.batch[0]], worker := s.worker.(phase := Marked)) else s
    case TryFails =>
      if s.worker.Busy? && s.worker.phase.Trying? && !s.worker.throwing && s.worker.batch != []
      then s.(failed := s.failed + {s.worker.batch[0]}, worker := s.worker.(phase := Marked)) else s
    case TryThrows =>
      if s.worker.Busy? && s.worker.phase.Trying? && !s.worker.throwing && s.worker.batch != []
      then s.(failed := s.failed + {s.worker.batch[0]}, worker := s.worker.(phase := Marked, throwing := true)) else s
    case FailRest =>
      if s.worker.Busy? && s.worker.phase.Trying? && s.worker.throwing && s.worker.batch != []
      then s.(failed := s.failed + {s.worker.batch[0]}, worker := s.worker.(phase := Marked)) else s
    case Release =>
      if s.worker.Busy? && s.worker.phase.Marked? && s.worker.batch != []
      then s.(completed := s.completed + {s.worker.batch[0]}, worker := s.worker.(phase := Released)) else s
    case Forget =>
      if s.worker.Busy? && s.worker.phase.Released? && s.worker.batch != [] then
        s.(outstanding := Without(s.outstanding, s.worker.batch[0]),
           worker := if |s.worker.batch| == 1 then if s.worker.throwing then Leaving else InChunk
                     else Busy(s.worker.batch[1..], Trying, s.worker.throwing))
      else s
    case _ => s
  }

  /** The worker thread around its batches. */
  function NextWorker(s: State, e: Event): Worker {
    match e
    case TakeLock => if s.worker.Spawned? && s.teardown.Idle? then if s.closed then Dead else Warming else s.worker
    case WarmUp(ok) => if s.worker.Warming? then if ok then Preparing else Dead else s.worker
    case EnterLoop => if s.worker.Preparing? then AtTop else s.worker
    case CrashOutright => if s.worker.Preparing? then Dead else s.worker
    case TestFlag => if s.worker.AtTop? then if s.closed then Leaving else Entered else s.worker
    case Drain =>
      if s.worker.Entered? then if s.queue == [] then InChunk else Busy(s.queue, Trying, false) else s.worker
    case EndChunk => if s.worker.InChunk? then AtTop else s.worker
    case Crash => if s.worker.Preparing? || s.worker.InChunk? then Leaving else s.worker
    case SetFlag => if s.worker.Leaving? then Resolving else s.worker
    case _ => s.worker
  }

  function LoopStep(s: State, e: Event): State {
    s.(worker := NextWorker(s, e),
       queue := if e.Drain? && s.worker.Entered? then [] else s.queue,
       closed := s.closed || (e.SetFlag? && s.worker.Leaving?))
  }

  /** A start while no worker lives. One that finds a run not torn down stops it
      first, which is a teardown like stop's. */
  predicate MayStart(s: State) {
    s.teardown.Idle? && (s.worker.Absent? || (s.worker.Dead? && s.stopped))
  }

  predicate MayStop(s: State) {
    s.teardown.Idle? && !s.worker.Warming? && !s.stopped
  }

  function LifecycleStep(s: State, e: Event): State {
    match e
    case Start => if MayStart(s) then s.(closed := false, stopped := false, worker := Spawned) else s
    case StopBegins => if MayStop(s) then s.(closed := true, teardown := Flagged) else s
    case StopEnds => if s.teardown.Waiting? then s.(teardown := Idle, stopped := true) else s
    case _ => s
  }

  /** The party has set the flag and is about to fail what is pending. */
  predicate CanBegin(s: State, who: Who) {
    who !in s.failers && if who.ByStop? then s.teardown.Flagged? else s.worker.Resolving?
  }

  function FailerStep(s: State, e: Event): State {
    match e
    case BeginFailing(who) =>
      if !CanBegin(s, who) then s
      else s.(outstanding := [], queue := [], failers := s.failers[who := Failer(s.outstanding + s.queue, false, false)],
              teardown := if who.ByStop? then Failing else s.teardown,
              worker := if who.ByWorker? then Finishing else s.worker)
    case CheckHead(who) =>
      if who in s.failers && s.failers[who].rest != [] && !s.failers[who].found then
        var f := s.failers[who];
        if f.rest[0] in s.completed then s.(failers := s.failers[who := Failer(f.rest[1..], false, false)])
        else s.(failers := s.failers[who := f.(found := true)])
      else s
    case MarkHead(who) =>
      if who in s.failers && s.failers[who].rest != [] && s.failers[who].found && !s.failers[who].marked then
        var f := s.failers[who];
        s.(failed := s.failed + {f.rest[0]}, failers := s.failers[who := f.(marked := true)])
      else s
    case ReleaseHead(who) =>
      if who in s.failers && s.failers[who].rest != [] && s.failers[who].found && s.failers[who].marked then
        var f := s.failers[who];
        s.(completed := s.completed + {f.rest[0]}, failers := s.failers[who := Failer(f.rest[1..], false, false)])
      else s
    case EndFailing(who) =>
      if who in s.failers && s.failers[who].rest == []
      then s.(failers := s.failers - {who},
              teardown := if who.ByStop? && s.teardown.Failing? then Waiting else s.teardown,
              worker := if who.ByWorker? && s.worker.Finishing? then Dead else s.worker)
      else s
    case _ => s
  }

  function CallerStep(s: State, e: Event): State {
    match e
    case Call =>
      if s.closed
      then s.(next := s.next + 1, failed := s.failed + {s.next}, completed := s.completed + {s.next})
      else s.(next := s.next + 1, queue := s.queue + [s.next], outstanding := s.outstanding + [s.next])
    case Close => s.(closed := true)
    case _ => s
  }

  predicate OfCaller(e: Event) {
    e.Call? || e.Close?
  }

  predicate OfLifecycle(e: Event) {
    e.Start? || e.StopBegins? || e.StopEnds?
  }

  predicate OfLoop(e: Event) {
    || e.TakeLock? || e.WarmUp? || e.EnterLoop? || e.CrashOutright? || e.TestFlag?
    || e.Drain? || e.EndChunk? || e.Crash? || e.SetFlag?
  }

  predicate OfFailer(e: Event) {
    e.BeginFailing? || e.CheckHead? || e.MarkHead? || e.ReleaseHead? || e.EndFailing?
  }

  function Apply(s: State, e: Event): State {
    if OfCaller(e) then CallerStep(s, e)
    else if OfLifecycle(e) then LifecycleStep(s, e)
    else if OfLoop(e) then LoopStep(s, e)
    else if OfFailer(e) then FailerStep(s, e)
    else WorkerStep(s, e)
  }

  const INITIAL := State(0, false, false, Idle, Absent, [], [], {}, {}, [], map[])

  function Steps(s: State, events: seq<Event>): State {
    if events == [] then s else Apply(Steps(s, events[..|events| - 1]), events[|events| - 1])
  }

  function Run(events: seq<Event>): State {
    Steps(INITIAL, events)
  }

  // ---------- invariants ----------

  predicate Ascending(s: seq<Request>) {
    forall i, j :: 0 <= i < j < |s| ==> s[i] < s[j]
  }

  predicate Before(s: seq<Request>, t: seq<Request>) {
    forall i, j :: 0 <= i < |s| && 0 <= j < |t| ==> s[i] < t[j]
  }

  predicate Below(s: seq<Request>, n: nat) {
    forall i :: 0 <= i < |s| ==> s[i] < n
  }

  /** The requests the worker may still apply. */
  function Batch(w: Worker): seq<Request> {
    if !w.Busy? then [] else if w.phase.Trying? then w.batch else if w.batch == [] then [] else w.batch[1..]
  }

  predicate Lined(applied: seq<Request>, batch: seq<Request>, queue: seq<Request>, next: nat) {
    && Ascending(applied) && Ascending(batch) && Ascending(queue)
    && Before(applied, batch) && Before(applied, queue) && Before(batch, queue)
    && Below(applied, next) && Below(batch, next) && Below(queue, next)
  }

  /** Requests flow from the queue through the batch to `applied` in call order. */
  predicate InOrder(s: State) {
    Lined(s.applied, Batch(s.worker), s.queue, s.next) && (s.worker.Busy? ==> s.worker.batch != [])
  }

  /** Queued requests are among the outstanding ones. */
  predicate QueuedOutstanding(queue: seq<Request>, outstanding: seq<Request>) {
    forall r :: r in queue ==> r in outstanding
  }

  ghost predicate HeldByFailer(failers: map<Who, Failer>, r: Request) {
    exists who :: who in failers && r in failers[who].rest
  }

  /** Every request made is completed, outstanding, or in a failer's hands. */
  ghost predicate NoneLost(s: State) {
    forall r: nat :: r < s.next ==> r in s.completed || r in s.outstanding || HeldByFailer(s.failers, r)
  }

  /** Completed without an error means applied. */
  predicate Honest(completed: set<Request>, failed: set<Request>, applied: seq<Request>) {
    forall r :: r in completed && r !in failed ==> r in applied
  }

  predicate MarksTrue(s: State) {
    && (s.worker.Busy? && s.worker.batch != [] && s.worker.phase.Marked? ==>
          s.worker.batch[0] in s.failed || s.worker.batch[0] in s.applied)
    && (s.worker.Busy? && s.worker.batch != [] && s.worker.phase.Released? ==> s.worker.batch[0] in s.completed)
    && (forall who :: who in s.failers && s.failers[who].marked && s.failers[who].rest != [] ==>
          s.failers[who].rest[0] in s.failed)
  }

  /** The worker's head is not queued, so forgetting it leaves the queue covered. */
  predicate HeadNotQueued(s: State) {
    s.worker.Busy? && s.worker.batch != [] ==> s.worker.batch[0] < s.next && Before([s.worker.batch[0]], s.queue)
  }

  /** Only requests that were made are outstanding or in a failer's hands. */
  predicate KnownOnly(s: State) {
    && (forall r :: r in s.outstanding ==> r < s.next)
    && (forall r :: r in s.queue ==> r < s.next)
    && (forall who, r :: who in s.failers && r in s.failers[who].rest ==> r < s.next)
  }

  /** A failer marks a request only after finding it incomplete. */
  predicate FoundBeforeMarked(failers: map<Who, Failer>) {
    forall who :: who in failers && failers[who].marked ==> failers[who].found
  }

  /** Whoever fails the pending requests has set the flag first, and it stays set
      and the queue empty until a start finds the last run torn down. */
  predicate Locked(s: State) {
    && (!s.teardown.Idle? ==> s.closed && !s.stopped)
    && (s.worker.Resolving? || s.worker.Finishing? ==> s.closed)
    && (s.stopped ==> s.closed)
    && (ByStop in s.failers <==> s.teardown.Failing?)
    && (ByWorker in s.failers <==> s.worker.Finishing?)
    && (s.teardown.Failing? || s.teardown.Waiting? || s.stopped || s.worker.Finishing? ==>
          s.queue == [] && s.outstanding == [])
  }

  ghost predicate Inv(s: State) {
    && Locked(s) && KnownOnly(s) && InOrder(s) && HeadNotQueued(s) && QueuedOutstanding(s.queue, s.outstanding)
    && FoundBeforeMarked(s.failers) && NoneLost(s) && MarksTrue(s) && Honest(s.completed, s.failed, s.applied)
  }

  lemma LockedKept(s: State, e: Event)
    requires Locked(s)
    ensures Locked(Apply(s, e))
  {
    hide *;
    LockedByLoop(s, e);
    LockedByFailer(s, e);
    LockedByOthers(s, e);
    Dispatch(s, e);
  }

  lemma Dispatch(s: State, e: Event)
    ensures var t := Apply(s, e);
      t == CallerStep(s, e) || t == LifecycleStep(s, e) || t == LoopStep(s, e) || t == FailerStep(s, e) || t == WorkerStep(s, e)
  {
    hide CallerStep, LifecycleStep, LoopStep, FailerStep, WorkerStep;
  }

  lemma LockedByLoop(s: State, e: Event)
    requires Locked(s)
    ensures Locked(LoopStep(s, e)) && Locked(LifecycleStep(s, e))
  {
  }

  lemma LockedByFailer(s: State, e: Event)
    requires Locked(s)
    ensures Locked(FailerStep(s, e))
  {
  }

  lemma LockedByOthers(s: State, e: Event)
    requires Locked(s)
    ensures Locked(CallerStep(s, e)) && Locked(WorkerStep(s, e))
  {
    assert Without([], 0) == [];
  }

  lemma CallerKeepsOrder(s: State, e: Event)
    requires InOrder(s) && HeadNotQueued(s) && OfCaller(e)
    ensures InOrder(CallerStep(s, e)) && HeadNotQueued(CallerStep(s, e))
  {
    hide Batch;
  }

  lemma LoopKeepsOrder(s: State, e: Event)
    requires InOrder(s) && HeadNotQueued(s)
    ensures InOrder(LoopStep(s, e)) && HeadNotQueued(LoopStep(s, e))
    ensures InOrder(LifecycleStep(s, e)) && HeadNotQueued(LifecycleStep(s, e))
  {
    hide Lined;
    if e.Drain? && s.worker.Entered? {
      LinedMoves(s.applied, [], s.queue, s.next);
      LinedMoves(s.applied, s.queue, [], s.next);
    }
  }

  lemma FailerKeepsOrder(s: State, e: Event)
    requires InOrder(s) && HeadNotQueued(s)
    ensures InOrder(FailerStep(s, e)) && HeadNotQueued(FailerStep(s, e))
  {
  }

  lemma LinedMoves(applied: seq<Request>, batch: seq<Request>, queue: seq<Request>, next: nat)
    requires Lined(applied, batch, queue, next)
    ensures batch == [] ==> Lined(applied, queue, [], next)
    ensures batch != [] ==> Lined(applied + [batch[0]], batch[1..], queue, next)
    ensures batch != [] ==> Lined(applied, batch[1..], queue, next)
    ensures batch != [] ==> batch[0] < next && Before([batch[0]], queue)
  {
  }

  lemma WorkerKeepsOrder(s: State, e: Event)
    requires InOrder(s) && HeadNotQueued(s)
    ensures InOrder(WorkerStep(s, e)) && HeadNotQueued(WorkerStep(s, e))
  {
    hide Lined, Before;
    LinedMoves(s.applied, Batch(s.worker), s.queue, s.next);
    var t := WorkerStep(s, e);
    if t.worker.Busy? && t.worker.phase.Trying? {
      LinedMoves(t.applied, Batch(t.worker), t.queue, t.next);
    }
  }

  lemma OrderKept(s: State, e: Event)
    requires InOrder(s) && HeadNotQueued(s)
    ensures InOrder(Apply(s, e)) && HeadNotQueued(Apply(s, e))
  {
    hide InOrder, HeadNotQueued, WorkerStep, FailerStep, CallerStep, LoopStep, LifecycleStep;
    if OfCaller(e) {
      CallerKeepsOrder(s, e);
    } else if OfLifecycle(e) || OfLoop(e) {
      LoopKeepsOrder(s, e);
    } else if OfFailer(e) {
      FailerKeepsOrder(s, e);
    } else {
      WorkerKeepsOrder(s, e);
    }
  }

  lemma QueuedKept(s: State, e: Event)
    requires QueuedOutstanding(s.queue, s.outstanding) && HeadNotQueued(s)
    ensures QueuedOutstanding(Apply(s, e).queue, Apply(s, e).outstanding)
  {
    if e.Forget? && s.worker.Busy? && s.worker.batch != [] {
      forall r | r in s.queue ensures r in Without(s.outstanding, s.worker.batch[0]) {
        assert r != s.worker.batch[0] by {
          var j :| 0 <= j < |s.queue| && s.queue[j] == r;
          assert [s.worker.batch[0]][0] < s.queue[j];
        }
      }
    }
  }

  /** Where a request may be found. */
  ghost predicate Found(s: State, r: Request) {
    r in s.completed || r in s.outstanding || HeldByFailer(s.failers, r)
  }

  lemma FoundByCaller(s: State, e: Event, r: Request)
    requires OfCaller(e) && (Found(s, r) || (r == s.next && e.Call?))
    ensures Found(CallerStep(s, e), r)
  {
    hide HeldByFailer;
  }

  lemma FoundByWorker(s: State, e: Event, r: Request)
    requires Found(s, r) && MarksTrue(s)
    ensures Found(WorkerStep(s, e), r)
  {
    hide HeldByFailer;
  }

  lemma FoundByLoop(s: State, e: Event, r: Request)
    requires Found(s, r)
    ensures Found(LoopStep(s, e), r) && Found(LifecycleStep(s, e), r)
  {
    hide HeldByFailer;
  }

  lemma FoundByFailer(s: State, e: Event, r: Request)
    requires Found(s, r)
    ensures Found(FailerStep(s, e), r)
  {
    var t := FailerStep(s, e);
    if e.BeginFailing? && CanBegin(s, e.who) && r in s.outstanding {
      assert r in t.failers[e.who].rest;
    } else if HeldByFailer(s.failers, r) {
      var who :| who in s.failers && r in s.failers[who].rest;
      assert r in t.completed || (who in t.failers && r in t.failers[who].rest);
    }
  }

  lemma NoneLostKept(s: State, e: Event)
    requires NoneLost(s) && MarksTrue(s)
    ensures NoneLost(Apply(s, e))
  {
    hide CallerStep, WorkerStep, FailerStep, LoopStep, LifecycleStep, HeldByFailer, MarksTrue;
    var t := Apply(s, e);
    NextGrows(s, e);
    forall r: nat | r < t.next ensures r in t.completed || r in t.outstanding || HeldByFailer(t.failers, r) {
      assert r < s.next ==> Found(s, r);
      if OfCaller(e) {
        FoundByCaller(s, e, r);
      } else if OfLifecycle(e) || OfLoop(e) {
        FoundByLoop(s, e, r);
      } else if OfFailer(e) {
        FoundByFailer(s, e, r);
      } else {
        FoundByWorker(s, e, r);
      }
    }
  }

  lemma NextGrows(s: State, e: Event)
    ensures Apply(s, e).next == if e.Call? then s.next + 1 else s.next
  {
    hide NextWorker, CanBegin, Without;
  }

  /** MarksTrue and Honest see nothing else. */
  predicate SameMarks(s: State, t: State) {
    && t.completed == s.completed && t.failed == s.failed && t.applied == s.applied && t.failers == s.failers
    && (t.worker.Busy? ==> t.worker == s.worker || t.worker.phase.Trying?)
  }

  lemma HonestByLoop(s: State, e: Event)
    ensures SameMarks(s, LoopStep(s, e)) && SameMarks(s, LifecycleStep(s, e))
  {
  }

  lemma HonestKept(s: State, e: Event)
    requires MarksTrue(s) && Honest(s.completed, s.failed, s.applied)
    ensures MarksTrue(Apply(s, e))
    ensures Honest(Apply(s, e).completed, Apply(s, e).failed, Apply(s, e).applied)
  {
    hide LoopStep, LifecycleStep, WorkerStep, FailerStep, CallerStep, Apply;
    Dispatch(s, e);
    HonestByLoop(s, e);
    HonestByFailer(s, e);
    HonestByOthers(s, e);
  }

  lemma HonestByFailer(s: State, e: Event)
    requires MarksTrue(s) && Honest(s.completed, s.failed, s.applied)
    ensures var t := FailerStep(s, e); MarksTrue(t) && Honest(t.completed, t.failed, t.applied)
  {
  }

  lemma HonestByOthers(s: State, e: Event)
    requires MarksTrue(s) && Honest(s.completed, s.failed, s.applied)
    ensures var t := CallerStep(s, e); MarksTrue(t) && Honest(t.completed, t.failed, t.applied)
    ensures var t := WorkerStep(s, e); MarksTrue(t) && Honest(t.completed, t.failed, t.applied)
  {
  }

  lemma KnownByFailer(s: State, e: Event)
    requires KnownOnly(s)
    ensures KnownOnly(FailerStep(s, e))
  {
    var t := FailerStep(s, e);
    forall who, r | who in t.failers && r in t.failers[who].rest ensures r < t.next {
      if who in s.failers {
        assert t.failers[who].rest == s.failers[who].rest || t.failers[who].rest == s.failers[who].rest[1..];
        assert r in s.failers[who].rest;
      }
    }
  }

  lemma KnownByOthers(s: State, e: Event)
    requires KnownOnly(s)
    ensures KnownOnly(CallerStep(s, e)) && KnownOnly(WorkerStep(s, e))
  {
  }

  lemma KnownByLoop(s: State, e: Event)
    requires KnownOnly(s)
    ensures KnownOnly(LoopStep(s, e)) && KnownOnly(LifecycleStep(s, e))
  {
    hide NextWorker;
  }

  lemma KnownKept(s: State, e: Event)
    requires KnownOnly(s)
    ensures KnownOnly(Apply(s, e))
  {
    hide *;
    Dispatch(s, e);
    KnownByFailer(s, e);
    KnownByOthers(s, e);
    KnownByLoop(s, e);
  }

  lemma FoundBeforeMarkedKept(s: State, e: Event)
    requires FoundBeforeMarked(s.failers)
    ensures FoundBeforeMarked(Apply(s, e).failers)
  {
    hide *;
    Dispatch(s, e);
    FoundFirstByFailer(s, e);
    OthersKeepFailers(s, e);
  }

  lemma FoundFirstByFailer(s: State, e: Event)
    requires FoundBeforeMarked(s.failers)
    ensures FoundBeforeMarked(FailerStep(s, e).failers)
  {
  }

  lemma OthersKeepFailers(s: State, e: Event)
    ensures CallerStep(s, e).failers == LifecycleStep(s, e).failers == s.failers
    ensures LoopStep(s, e).failers == WorkerStep(s, e).failers == s.failers
  {
    hide NextWorker, MayStart, MayStop, Without;
  }

  lemma StepKeepsInv(s: State, e: Event)
    requires Inv(s)
    ensures Inv(Apply(s, e))
  {
    hide Apply, Locked, KnownOnly, InOrder, HeadNotQueued, QueuedOutstanding, NoneLost, MarksTrue, Honest, FoundBeforeMarked;
    LockedKept(s, e);
    KnownKept(s, e);
    FoundBeforeMarkedKept(s, e);
    OrderKept(s, e);
    QueuedKept(s, e);
    NoneLostKept(s, e);
    HonestKept(s, e);
  }

  lemma {:induction false} StepsKeepInv(s: State, events: seq<Event>)
    requires Inv(s)
    ensures Inv(Steps(s, events))
  {
    hide Inv, Apply;
    if events != [] {
      StepsKeepInv(s, events[..|events| - 1]);
      StepKeepsInv(Steps(s, events[..|events| - 1]), events[|events| - 1]);
    }
  }

  lemma RunKeepsInv(events: seq<Event>)
    ensures Inv(Run(events))
  {
    StepsKeepInv(INITIAL, events);
    hide Steps;
  }

  // ---------- main theorems ----------

  /** In every interleaving swaps are applied in request order, each at most
      once; queued requests are outstanding; and a request that completed
      without an error was applied. */
  lemma AppliedInOrder(events: seq<Event>)
    ensures var s := Run(events);
      && Ascending(s.applied)
      && QueuedOutstanding(s.queue, s.outstanding)
      && (forall r :: r in s.completed && r !in s.failed ==> r in s.applied)
  {
    RunKeepsInv(events);
    hide Run;
  }

  // ---------- runs, one event earlier ----------

  lemma {:induction false} StepsCons(s: State, e: Event, events: seq<Event>)
    ensures Steps(s, [e] + events) == Steps(Apply(s, e), events)
  {
    hide Apply;
    var all := [e] + events;
    if events == [] {
      assert all[..0] == [] && all[0] == e;
      assert Steps(s, all[..0]) == s;
    } else {
      var n := |events| - 1;
      StepsCons(s, e, events[..n]);
      assert all[..|all| - 1] == [e] + events[..n] && all[|all| - 1] == events[n];
    }
  }

  lemma {:induction false} StepsConcat(s: State, a: seq<Event>, b: seq<Event>)
    ensures Steps(s, a + b) == Steps(Steps(s, a), b)
  {
    hide Apply;
    if b == [] {
      assert a + b == a;
    } else {
      var n := |b| - 1;
      StepsConcat(s, a, b[..n]);
      assert (a + b)[..|a + b| - 1] == a + b[..n];
    }
  }

  lemma ThreeThen(s: State, a: Event, b: Event, c: Event, rest: seq<Event>)
    ensures Steps(s, [a, b, c] + rest) == Steps(Apply(Apply(Apply(s, a), b), c), rest)
  {
    hide Apply, Steps;
    StepsCons(s, a, [b, c] + rest);
    StepsCons(Apply(s, a), b, [c] + rest);
    StepsCons(Apply(Apply(s, a), b), c, rest);
    assert [a] + ([b, c] + rest) == [a, b, c] + rest && [b] + ([c] + rest) == [b, c] + rest;
  }

  lemma OneStep(s: State, e: Event)
    ensures Steps(s, [e]) == Apply(s, e)
    ensures Steps(s, []) == s
  {
    assert [e] + [] == [e];
    StepsCons(s, e, []);
    hide Apply;
  }

  // ---------- a failer from its first step to its last ----------

  /** These events do not end the failer's call. */
  predicate WithoutEnd(events: seq<Event>, who: Who) {
    forall i :: 0 <= i < |events| ==> events[i] != EndFailing(who)
  }

  /** The failer has visited everything and is about to return. */
  predicate AtEnd(s: State, who: Who) {
    who in s.failers && s.failers[who].rest == []
  }

  /** While a failer is at work no request is queued or outstanding, and no start
      can clear the flag. */
  lemma {:induction false} StaysDrained(s: State, who: Who, events: seq<Event>)
    requires Inv(s) && who in s.failers && WithoutEnd(events, who)
    ensures var t := Steps(s, events); Inv(t) && who in t.failers && t.closed && t.queue == [] && t.outstanding == []
  {
    if events != [] {
      var init, e := events[..|events| - 1], events[|events| - 1];
      assert WithoutEnd(init, who);
      StaysDrained(s, who, init);
      StepKeepsInv(Steps(s, init), e);
      StaysAtWork(Steps(s, init), who, e);
    }
    hide Apply, NoneLost, MarksTrue, Honest, InOrder, HeadNotQueued, KnownOnly, QueuedOutstanding;
  }

  lemma StaysAtWork(s: State, who: Who, e: Event)
    requires who in s.failers && e != EndFailing(who)
    ensures who in Apply(s, e).failers
  {
    hide *;
    Dispatch(s, e);
    FailerStays(s, who, e);
    OthersKeepFailers(s, e);
  }

  lemma FailerStays(s: State, who: Who, e: Event)
    requires who in s.failers && e != EndFailing(who)
    ensures who in FailerStep(s, e).failers
  {
  }

  ghost predicate AllCompleted(s: State) {
    forall r: nat :: r < s.next ==> r in s.completed
  }

  /** Some failer other than `who` still holds an incomplete request. */
  ghost predicate OtherFailerBusy(s: State, who: Who) {
    exists g, r :: g in s.failers && g != who && r in s.failers[g].rest && r !in s.completed
  }

  /** When a call that fails the pending requests is about to return, what is
      still incomplete is in the other party's hands. */
  lemma IncompleteIsHeld(before: seq<Event>, who: Who, after: seq<Event>)
    requires CanBegin(Run(before), who) && WithoutEnd(after, who)
    requires AtEnd(Steps(Apply(Run(before), BeginFailing(who)), after), who)
    ensures var s := Steps(Apply(Run(before), BeginFailing(who)), after);
      AllCompleted(s) <==> !OtherFailerBusy(s, who)
  {
    RunKeepsInv(before);
    StepKeepsInv(Run(before), BeginFailing(who));
    var s1 := Apply(Run(before), BeginFailing(who));
    StaysDrained(s1, who, after);
    DrainedMeansHeld(Steps(s1, after), who);
    hide Apply, Steps, Run;
  }

  lemma DrainedMeansHeld(s: State, who: Who)
    requires KnownOnly(s) && NoneLost(s) && s.outstanding == [] && (who in s.failers ==> s.failers[who].rest == [])
    ensures AllCompleted(s) <==> !OtherFailerBusy(s, who)
  {
    if !OtherFailerBusy(s, who) {
      forall r: nat | r < s.next ensures r in s.completed {
        assert r in s.completed || HeldByFailer(s.failers, r);
      }
    }
  }

  /** Once an engine has been stopped, nobody waits for a swap any more, unless
      a worker that outlived the stop is still failing what was pending. */
  lemma StoppedMeansResolved(events: seq<Event>)
    requires Run(events).stopped && !Run(events).worker.Finishing?
    ensures AllCompleted(Run(events))
  {
    RunKeepsInv(events);
    hide Run;
    NobodyFailing(Run(events));
  }

  lemma NobodyFailing(s: State)
    requires Locked(s) && KnownOnly(s) && NoneLost(s) && s.stopped && !s.worker.Finishing?
    ensures AllCompleted(s)
  {
    forall who ensures who !in s.failers {
      assert who == ByStop || who == ByWorker;
    }
  }

  // ---------- whole turns of the worker, start and stop ----------

  /** The flag is set by whoever aborts, by a stop as it begins, and by the worker
      as it leaves; it is cleared by a start only. */
  lemma FlagChanges(s: State, e: Event)
    ensures Apply(s, e).closed && !s.closed ==> e.Close? || (e.StopBegins? && MayStop(s)) || (e.SetFlag? && s.worker.Leaving?)
    ensures !Apply(s, e).closed && s.closed ==> e.Start? && MayStart(s)
  {
    hide *;
    Dispatch(s, e);
    FlagBySteps(s, e);
    FlagByWork(s, e);
  }

  lemma FlagBySteps(s: State, e: Event)
    ensures CallerStep(s, e).closed == (s.closed || e.Close?)
    ensures LifecycleStep(s, e).closed == if e.Start? && MayStart(s) then false else s.closed || (e.StopBegins? && MayStop(s))
    ensures LoopStep(s, e).closed == (s.closed || (e.SetFlag? && s.worker.Leaving?))
  {
    hide NextWorker, MayStart, MayStop;
  }

  lemma FlagByWork(s: State, e: Event)
    ensures FailerStep(s, e).closed == WorkerStep(s, e).closed == s.closed
  {
    hide Without, CanBegin;
  }

  /** A turn of the loop with nothing queued and the flag clear. */
  lemma EmptyTurn(s: State)
    requires s.worker.AtTop? && !s.closed && s.queue == []
    ensures Apply(Apply(Apply(s, TestFlag), Drain), EndChunk) == s
  {
    hide FailerStep, WorkerStep, CallerStep, LifecycleStep;
  }

  /** The worker's ends. A start that comes too late, a warm-up that fails or a loop
      that cannot be entered ends it at once; an exception before the loop or in a
      chunk makes it leave, and so does the flag. */
  lemma WorkerEnds(s: State)
    ensures s.worker.Spawned? && s.teardown.Idle? && s.closed ==> Apply(s, TakeLock) == s.(worker := Dead)
    ensures s.worker.Warming? ==> Apply(s, WarmUp(false)) == s.(worker := Dead)
    ensures s.worker.Preparing? ==> Apply(s, CrashOutright) == s.(worker := Dead)
    ensures s.worker.Preparing? || s.worker.InChunk? ==> Apply(s, Crash) == s.(worker := Leaving)
    ensures s.worker.AtTop? && s.closed ==> Apply(s, TestFlag) == s.(worker := Leaving)
  {
    hide FailerStep, WorkerStep, CallerStep, LifecycleStep;
  }

  /** A leaving worker sets the flag, fails what is pending, and is gone. */
  lemma WorkerLeaves(s: State)
    requires s.worker.Leaving? && s.failers == map[] && s.queue == [] && s.outstanding == []
    ensures Apply(Apply(Apply(s, SetFlag), BeginFailing(ByWorker)), EndFailing(ByWorker)) == s.(closed := true, worker := Dead)
  {
    hide Apply;
    FlagSet(s);
    FailingNothing(s.(closed := true, worker := Resolving), ByWorker);
  }

  lemma FlagSet(s: State)
    requires s.worker.Leaving?
    ensures Apply(s, SetFlag) == s.(closed := true, worker := Resolving)
  {
    hide FailerStep, WorkerStep, CallerStep, LifecycleStep;
  }

  lemma FailerOnly(s: State, e: Event)
    requires OfFailer(e)
    ensures Apply(s, e) == FailerStep(s, e)
  {
    hide FailerStep;
  }

  /** With nothing pending, failing it is over at once. */
  lemma FailingNothing(s: State, who: Who)
    requires CanBegin(s, who) && s.failers == map[] && s.queue == [] && s.outstanding == []
    ensures Apply(Apply(s, BeginFailing(who)), EndFailing(who))
         == s.(teardown := if who.ByStop? then Waiting else s.teardown, worker := if who.ByWorker? then Dead else s.worker)
  {
    FailerOnly(s, BeginFailing(who));
    var failing := Apply(s, BeginFailing(who));
    FailerOnly(failing, EndFailing(who));
    hide Apply;
    assert [] + [] == s.queue;
    assert failing.failers == map[who := Failer([], false, false)];
    assert failing.failers - {who} == map[];
  }

  /** A stop of an engine with nothing pending, and the next start. */
  lemma StopAndStart(s: State)
    requires MayStop(s) && s.failers == map[] && s.queue == [] && s.outstanding == []
    ensures var t := Apply(Apply(Apply(Apply(s, StopBegins), BeginFailing(ByStop)), EndFailing(ByStop)), StopEnds);
      && t == s.(closed := true, stopped := true)
      && (t.worker.Dead? ==> Apply(t, Start) == t.(closed := false, stopped := false, worker := Spawned))
      && (!t.worker.Dead? && !t.worker.Absent? ==> Apply(t, Start) == t)
  {
    hide Apply;
    LifecycleSteps(s);
    var flagged := s.(closed := true, teardown := Flagged);
    FailingNothing(flagged, ByStop);
    LifecycleSteps(flagged.(teardown := Waiting));
    LifecycleSteps(s.(closed := true, stopped := true));
  }

  lemma LifecycleSteps(s: State)
    ensures MayStop(s) ==> Apply(s, StopBegins) == s.(closed := true, teardown := Flagged)
    ensures s.teardown.Waiting? ==> Apply(s, StopEnds) == s.(teardown := Idle, stopped := true)
    ensures Apply(s, Start) == if MayStart(s) then s.(closed := false, stopped := false, worker := Spawned) else s
  {
    hide FailerStep, WorkerStep, CallerStep, LoopStep;
  }

  /** A call to a closed engine fails and is completed at once; one to an open
      engine is queued and outstanding. */
  lemma CallIs(s: State)
    ensures var t, r := Apply(s, Call), s.next;
      if s.closed then t == s.(next := r + 1, failed := s.failed + {r}, completed := s.completed + {r})
      else t == s.(next := r + 1, queue := s.queue + [r], outstanding := s.outstanding + [r])
  {
  }

  /** A never started engine's queue, drained by the first run. */
  const FIRST_DRAIN := [Call, Start, TakeLock, WarmUp(true)] + [EnterLoop, TestFlag, Drain, StopBegins]

  lemma FirstDrain()
    ensures var s := Run(FIRST_DRAIN);
      s == INITIAL.(next := 1, closed := true, teardown := Flagged, worker := Busy([0], Trying, false), outstanding := [0])
  {
    var a, b := [Call, Start, TakeLock, WarmUp(true)], [EnterLoop, TestFlag, Drain, StopBegins];
    StepsConcat(INITIAL, a, b);
    FourSteps(INITIAL, Call, Start, TakeLock, WarmUp(true));
    FourSteps(Steps(INITIAL, a), EnterLoop, TestFlag, Drain, StopBegins);
    FirstWarmUp();
    hide Steps;
  }

  lemma FirstWarmUp()
    ensures Apply(Apply(Apply(Apply(INITIAL, Call), Start), TakeLock), WarmUp(true))
         == INITIAL.(next := 1, worker := Preparing, queue := [0], outstanding := [0])
  {
  }

  /** The unconditional claim fails: the worker's exit has drained the list and
      not yet completed it when a stop finds nothing to do. */
  lemma SecondFailerReturnsEarly()
    ensures var s := Run(EXIT_THEN_STOP);
      AtEnd(s, ByStop) && ByWorker in s.failers && !AllCompleted(s)
  {
    var a, b, c := [Call, Start, TakeLock, WarmUp(true)], [Crash, SetFlag, BeginFailing(ByWorker), StopBegins], [BeginFailing(ByStop)];
    StepsConcat(INITIAL, a, b);
    StepsConcat(INITIAL, a + b, c);
    FourSteps(INITIAL, Call, Start, TakeLock, WarmUp(true));
    FourSteps(Steps(INITIAL, a), Crash, SetFlag, BeginFailing(ByWorker), StopBegins);
    FirstWarmUp();
    StepsCons(Steps(INITIAL, a + b), BeginFailing(ByStop), []);
    assert [BeginFailing(ByStop)] + [] == c;
    ExitThenStop(Steps(INITIAL, a));
    hide Steps, Apply;
  }

  lemma ExitThenStop(s: State)
    requires s == INITIAL.(next := 1, worker := Preparing, queue := [0], outstanding := [0])
    ensures var t := Apply(Apply(Apply(Apply(Apply(s, Crash), SetFlag), BeginFailing(ByWorker)), StopBegins), BeginFailing(ByStop));
      AtEnd(t, ByStop) && ByWorker in t.failers && !AllCompleted(t)
  {
    var flagged := Apply(Apply(s, Crash), SetFlag);
    assert flagged == s.(worker := Resolving, closed := true);
    var failing := Apply(flagged, BeginFailing(ByWorker));
    assert failing.worker == Finishing && ByWorker in failing.failers && failing.failers.Keys == {ByWorker};
    assert failing.outstanding == [] && failing.queue == [] && failing.completed == {} && failing.next == 1;
    BothFailing(failing);
  }

  lemma BothFailing(s: State)
    requires s.worker == Finishing && s.failers.Keys == {ByWorker} && s.teardown == Idle && !s.stopped
    requires s.outstanding == [] && s.queue == [] && s.completed == {} && s.next == 1
    ensures var t := Apply(Apply(s, StopBegins), BeginFailing(ByStop));
      AtEnd(t, ByStop) && ByWorker in t.failers && !AllCompleted(t)
  {
    var t := Apply(Apply(s, StopBegins), BeginFailing(ByStop));
    var zero: nat := 0;
    assert zero < t.next && zero !in t.completed;
  }

  const EXIT_THEN_STOP :=
    [Call, Start, TakeLock, WarmUp(true)] + [Crash, SetFlag, BeginFailing(ByWorker), StopBegins] + [BeginFailing(ByStop)]

  lemma FourSteps(s: State, a: Event, b: Event, c: Event, d: Event)
    ensures Steps(s, [a, b, c, d]) == Apply(Apply(Apply(Apply(s, a), b), c), d)
  {
    hide Apply;
    assert [a, b, c, d][..3] == [a, b, c] && [a, b, c][..2] == [a, b] && [a, b][..1] == [a] && [a][..0] == [];
    assert Steps(s, [a]) == Apply(s, a);
    assert Steps(s, [a, b]) == Apply(Apply(s, a), b);
    assert Steps(s, [a, b, c]) == Apply(Apply(Apply(s, a), b), c);
  }

  /** How many steps of its own a failer still needs. */
  function StepsLeft(f: Failer): int {
    3 * |f.rest| - (if f.found then 1 else 0) - (if f.marked then 1 else 0)
  }

  predicate OwnStep(e: Event, who: Who) {
    (e.CheckHead? || e.MarkHead? || e.ReleaseHead?) && e.who == who
  }

  function OwnNext(f: Failer, who: Who): Event {
    if !f.found then CheckHead(who) else if !f.marked then MarkHead(who) else ReleaseHead(who)
  }

  /** A failer that still holds requests always has a step, which brings it
      closer to its end. */
  lemma FailerAdvances(events: seq<Event>, who: Who)
    requires who in Run(events).failers && Run(events).failers[who].rest != []
    ensures var s := Run(events); var own := OwnNext(s.failers[who], who);
      && OwnStep(own, who) && who in Apply(s, own).failers
      && 0 <= StepsLeft(Apply(s, own).failers[who]) < StepsLeft(s.failers[who])
  {
    RunKeepsInv(events);
    hide Run, NoneLost, InOrder, HeadNotQueued, MarksTrue, Honest, KnownOnly;
  }

  /** Nobody else can slow it down. */
  lemma FailerUndisturbed(s: State, who: Who, e: Event)
    requires who in s.failers && !OwnStep(e, who) && e != EndFailing(who)
    ensures who in Apply(s, e).failers && Apply(s, e).failers[who] == s.failers[who]
  {
    hide *;
    Dispatch(s, e);
    OtherUndisturbed(s, who, e);
    OthersKeepFailers(s, e);
  }

  lemma OtherUndisturbed(s: State, who: Who, e: Event)
    requires who in s.failers && !OwnStep(e, who) && e != EndFailing(who)
    ensures who in FailerStep(s, e).failers && FailerStep(s, e).failers[who] == s.failers[who]
  {
  }

  /** A caller told that its swap failed may still hear the new voice: a stop can
      resolve a request the worker has already drained and goes on to apply. */
  lemma FailedMayStillApply()
    ensures var s := Run(FIRST_DRAIN + [BeginFailing(ByStop), CheckHead(ByStop), MarkHead(ByStop), ReleaseHead(ByStop)] + [TrySucceeds]);
      0 in s.completed && 0 in s.failed && 0 in s.applied
  {
    var b := [BeginFailing(ByStop), CheckHead(ByStop), MarkHead(ByStop), ReleaseHead(ByStop)];
    StepsConcat(INITIAL, FIRST_DRAIN, b);
    StepsConcat(INITIAL, FIRST_DRAIN + b, [TrySucceeds]);
    FirstDrain();
    FourSteps(Run(FIRST_DRAIN), BeginFailing(ByStop), CheckHead(ByStop), MarkHead(ByStop), ReleaseHead(ByStop));
    StepsCons(Steps(INITIAL, FIRST_DRAIN + b), TrySucceeds, []);
    assert [TrySucceeds] + [] == [TrySucceeds];
    ResolvedThenApplied(Run(FIRST_DRAIN));
    hide Apply, Steps;
  }

  lemma ResolvedThenApplied(s: State)
    requires s.worker == Busy([0], Trying, false) && s.teardown == Flagged
    requires s.completed == {} && s.outstanding == [0] && s.queue == [] && s.failers == map[]
    ensures var t := Apply(Apply(Apply(Apply(Apply(s, BeginFailing(ByStop)), CheckHead(ByStop)), MarkHead(ByStop)), ReleaseHead(ByStop)), TrySucceeds);
      0 in t.completed && 0 in t.failed && 0 in t.applied
  {
    var begun := Apply(s, BeginFailing(ByStop));
    assert ByStop in begun.failers && begun.failers[ByStop] == Failer([0], false, false) by {
      assert [0] + [] == [0];
    }
    assert begun.worker == s.worker && begun.completed == {};
    BegunThenApplied(begun);
    hide Apply;
  }

  lemma BegunThenApplied(s: State)
    requires s.worker == Busy([0], Trying, false) && s.completed == {}
    requires ByStop in s.failers && s.failers[ByStop] == Failer([0], false, false)
    ensures var t := Apply(Apply(Apply(Apply(s, CheckHead(ByStop)), MarkHead(ByStop)), ReleaseHead(ByStop)), TrySucceeds);
      0 in t.completed && 0 in t.failed && 0 in t.applied
  {
    HeadResolved(s);
    var released := Apply(Apply(Apply(s, CheckHead(ByStop)), MarkHead(ByStop)), ReleaseHead(ByStop));
    hide FailerStep;
    assert 0 in released.completed && 0 in released.failed && released.worker == s.worker;
  }

  lemma HeadResolved(s: State)
    requires s.completed == {} && ByStop in s.failers && s.failers[ByStop] == Failer([0], false, false)
    ensures var t := Apply(Apply(Apply(s, CheckHead(ByStop)), MarkHead(ByStop)), ReleaseHead(ByStop));
      0 in t.completed && 0 in t.failed && t.worker == s.worker
  {
    hide WorkerStep, LoopStep, LifecycleStep, CallerStep;
    var checked := Apply(s, CheckHead(ByStop));
    assert checked == s.(failers := s.failers[ByStop := Failer([0], true, false)]);
    var marked := Apply(checked, MarkHead(ByStop));
    assert marked.failers[ByStop] == Failer([0], true, true) && 0 in marked.failed && marked.worker == s.worker;
  }
}
