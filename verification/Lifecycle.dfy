// Starting and stopping the engine. Callers of start and stop, the worker
// threads they leave behind, the engine stopping itself, and the host's own
// use of the garbage collector, interleaved step by step. start and a worker's
// warm-up hold the lifecycle lock throughout; stop holds it while it waits for
// the worker, and that wait may time out.
module Lifecycle {

  /** A worker thread: waiting for the lock, warming up with the lock held, in
      its chunk loop, draining after it, past setting the stop flag, gone. */
  datatype Worker = Spawned | Warming | Looping | Draining | Leaving | Dead

  datatype State = State(
    workers: seq<Worker>,   // one per run, oldest first
    chunks: seq<nat>,       // how many chunks each has begun
    stopping: bool,         // a stop holds the lock, waiting for the worker
    stopFlag: bool,
    stopped: bool,
    gc: bool,               // the collector is enabled
    gcWasEnabled: bool,     // what teardown is to restore
    found: bool,            // what the last start found
    host: bool,             // what the host last chose, or a later teardown left
    torn: nat)              // runs torn down so far

  datatype Event =
    | Start
    | StopBegins
    | StopEnds
    | SelfAbort
    | HostSetsGc(enabled: bool)
    | TakeLock(k: nat)
    | WarmUp(k: nat, ok: bool)
    | BeginChunk(k: nat)
    | LeaveLoop(k: nat)
    | Crash(k: nat)
    | CrashOutright(k: nat)
    | FinishDrain(k: nat)
    | Exit(k: nat)

  function InitialState(gc: bool): State {
    State([], [], false, false, false, gc, false, gc, gc, 0)
  }

  predicate LockFree(s: State) {
    !s.stopping && forall k :: 0 <= k < |s.workers| ==> s.workers[k] != Warming
  }

  /** The body of teardown after the worker has been waited for. */
  function TornDown(s: State): State {
    var left := s.gcWasEnabled || s.gc;
    s.(gc := left, host := left, gcWasEnabled := false, stopped := true, stopFlag := true, torn := |s.workers|)
  }

  /** The last worker, if any, is gone. */
  predicate LastDead(workers: seq<Worker>) {
    workers != [] ==> workers[|workers| - 1] == Dead
  }

  function StartStep(s: State): State {
    if !LockFree(s) || !LastDead(s.workers) then s
    else
      Begun(if s.workers != [] && !s.stopped then TornDown(s) else s)
  }

  /** A new run: flags cleared, the collector's state noted and switched off. */
  function Begun(s: State): State {
    s.(stopFlag := false, stopped := false, found := s.gc, gcWasEnabled := s.gc, gc := false,
       workers := s.workers + [Spawned], chunks := s.chunks + [0])
  }

  function NextWorker(w: Worker, e: Event, stopFlag: bool, lockFree: bool): Worker {
    match e
    case TakeLock(_) => if w == Spawned && lockFree then (if stopFlag then Dead else Warming) else w
    case WarmUp(_, ok) => if w == Warming then (if ok then Looping else Dead) else w
    case LeaveLoop(_) => if w == Looping && stopFlag then Draining else w
    case Crash(_) => if w == Looping then Draining else w
    case CrashOutright(_) => if w == Looping then Dead else w
    case FinishDrain(_) => if w == Draining then Leaving else w
    case Exit(_) => if w == Leaving then Dead else w
    case _ => w
  }

  predicate BeginsChunk(w: Worker, e: Event, stopFlag: bool) {
    e.BeginChunk? && w == Looping && !stopFlag
  }

  function WorkerStep(s: State, k: nat, e: Event): State
    requires k < |s.workers| && k < |s.chunks|
  {
    var w := s.workers[k];
    s.(workers := s.workers[k := NextWorker(w, e, s.stopFlag, LockFree(s))],
       chunks := if BeginsChunk(w, e, s.stopFlag) then s.chunks[k := s.chunks[k] + 1] else s.chunks,
       stopFlag := s.stopFlag || (e.FinishDrain? && w == Draining))
  }

  predicate OfWorker(e: Event) {
    e.TakeLock? || e.WarmUp? || e.BeginChunk? || e.LeaveLoop? || e.Crash? || e.CrashOutright? || e.FinishDrain? || e.Exit?
  }

  /** A run is active from its start to its teardown. */
  predicate Active(s: State) {
    s.torn < |s.workers|
  }

  function Apply(s: State, e: Event): State {
    if OfWorker(e) then if e.k < |s.workers| && e.k < |s.chunks| then WorkerStep(s, e.k, e) else s
    else
      match e
      case Start => StartStep(s)
      case StopBegins => if LockFree(s) && !s.stopped then s.(stopping := true, stopFlag := true) else s
      case StopEnds => if s.stopping then TornDown(s).(stopping := false) else s
      case SelfAbort => s.(stopFlag := true)
      case HostSetsGc(enabled) => s.(gc := enabled, host := enabled)
      case _ => s
  }

  ghost predicate Inv(s: State) {
    && |s.workers| == |s.chunks|
    && (forall k :: 0 <= k < |s.workers| - 1 ==> s.workers[k] == Dead)
    && s.torn <= |s.workers| <= s.torn + 1
    && (s.stopped ==> !Active(s))
    && (!s.stopped && s.workers != [] ==> Active(s))
    && (s.stopping ==> s.stopFlag && !s.stopped)
    && (Active(s) ==> s.gcWasEnabled == s.found && (!s.found ==> s.gc == s.host) && (s.gc ==> s.host))
    && (!Active(s) ==> s.gc == s.host && !s.gcWasEnabled)
  }

  lemma WorkerKeepsInv(s: State, k: nat, e: Event)
    requires Inv(s) && k < |s.workers|
    ensures Inv(WorkerStep(s, k, e))
  {
    hide LockFree;
  }

  lemma StartKeepsInv(s: State)
    requires Inv(s)
    ensures Inv(StartStep(s))
  {
  }

  lemma StepKeepsInv(s: State, e: Event)
    requires Inv(s)
    ensures Inv(Apply(s, e))
  {
    hide StartStep, WorkerStep, LockFree;
    if OfWorker(e) {
      if e.k < |s.workers| { WorkerKeepsInv(s, e.k, e); }
    } else if e.Start? {
      StartKeepsInv(s);
    }
  }

  function Steps(s: State, events: seq<Event>): State {
    if events == [] then s else Apply(Steps(s, events[..|events| - 1]), events[|events| - 1])
  }

  function Run(gc: bool, events: seq<Event>): State {
    Steps(InitialState(gc), events)
  }

  lemma {:induction false} StepsKeepInv(s: State, events: seq<Event>)
    requires Inv(s)
    ensures Inv(Steps(s, events))
  {
    hide Inv, Apply;
    if events != [] {
      StepsKeepInv(s, events[..|events| - 1]);
      StepKeepsInv(Steps(s, events[..|events| - 1]), events[|events| - 1]);
    }
  }

  lemma RunKeepsInv(gc: bool, events: seq<Event>)
    ensures Inv(Run(gc, events))
  {
    StepsKeepInv(InitialState(gc), events);
  }

  /** A run is its events, one after the other. */
  lemma {:induction false} StepsSplit(s: State, e: Event, a: seq<Event>, b: seq<Event>)
    ensures Steps(s, [e]) == Apply(s, e)
    ensures Steps(s, a + b) == Steps(Steps(s, a), b)
    decreases |b|
  {
    hide Apply;
    assert [e][..0] == [] && Steps(s, [e][..0]) == s;
    if b == [] {
      assert a + b == a;
    } else {
      StepsSplit(s, e, a, b[..|b| - 1]);
      assert (a + b)[..|a + b| - 1] == a + b[..|b| - 1];
    }
  }

  // ---------- one run from start to stop ----------

  /** What a teardown now would leave the collector at: on if the run's start found
      it on, otherwise as the host last left it. */
  predicate Leaves(s: State) {
    (Active(s) && s.found) || s.host
  }

  /** A start that may begins a run: a new worker, the flag clear, the collector
      off and its setting noted, a run not yet torn down torn down first. One that
      may not, because the lock is taken or the last worker lives, does nothing. */
  lemma StartIs(s: State)
    requires Inv(s)
    ensures var t := Apply(s, Start); var k := |s.workers|;
      if !LockFree(s) || !LastDead(s.workers) then t == s
      else
        && t.workers == s.workers + [Spawned] && t.chunks == s.chunks + [0]
        && !t.stopFlag && !t.stopped && !t.stopping && !t.gc
        && t.found == t.gcWasEnabled == t.host == Leaves(s) && t.torn == k
  {
  }

  /** A worker warms up once it has the lock, unless the flag is set by then; a
      warm-up that fails ends it. */
  lemma WorkerWarms(s: State, k: nat)
    requires |s.workers| == |s.chunks| == k + 1
    ensures s.workers[k] == Spawned && LockFree(s) ==>
      Apply(s, TakeLock(k)) == s.(workers := s.workers[k := if s.stopFlag then Dead else Warming])
    ensures s.workers[k] == Spawned && s.stopping ==> Apply(s, TakeLock(k)).workers == s.workers
    ensures s.workers[k] == Warming ==>
      && Apply(s, WarmUp(k, true)) == s.(workers := s.workers[k := Looping])
      && Apply(s, WarmUp(k, false)) == s.(workers := s.workers[k := Dead])
  {
    hide StartStep;
  }

  /** It begins chunks while the flag is clear and leaves its loop once it is set,
      or at an exception; then it drains, sets the flag and is gone. */
  lemma WorkerLoops(s: State, k: nat)
    requires |s.workers| == |s.chunks| == k + 1
    ensures s.workers[k] == Looping ==>
      && Apply(s, BeginChunk(k)).chunks == (if s.stopFlag then s.chunks else s.chunks[k := s.chunks[k] + 1])
      && Apply(s, LeaveLoop(k)).workers == (if s.stopFlag then s.workers[k := Draining] else s.workers)
      && Apply(s, Crash(k)) == s.(workers := s.workers[k := Draining])
      && Apply(s, CrashOutright(k)) == s.(workers := s.workers[k := Dead])
    ensures s.workers[k] == Draining ==> Apply(s, FinishDrain(k)) == s.(workers := s.workers[k := Leaving], stopFlag := true)
    ensures s.workers[k] == Leaving ==> Apply(s, Exit(k)) == s.(workers := s.workers[k := Dead])
  {
    hide StartStep, LockFree;
  }

  /** The stages of a worker, in order, and the event that ends each. */
  predicate Passes(w: Worker, e: Event, v: Worker) {
    || (w == Spawned && e.TakeLock? && (v == Warming || v == Dead))
    || (w == Warming && e.WarmUp? && v == (if e.ok then Looping else Dead))
    || (w == Looping && ((v == Draining && (e.LeaveLoop? || e.Crash?)) || (v == Dead && e.CrashOutright?)))
    || (w == Draining && e.FinishDrain? && v == Leaving)
    || (w == Leaving && e.Exit? && v == Dead)
  }

  /** No step moves a worker but by one stage, and only by its own event. */
  lemma StagesInOrder(s: State, e: Event, k: nat)
    requires k < |s.workers| == |s.chunks|
    ensures k < |Apply(s, e).workers|
    ensures var v := Apply(s, e).workers[k];
      v == s.workers[k] || (OfWorker(e) && e.k == k && Passes(s.workers[k], e, v))
  {
    if OfWorker(e) && e.k < |s.workers| {
      NextPasses(s.workers[e.k], e, s.stopFlag, LockFree(s));
      hide LockFree, NextWorker, Passes, StartStep;
    } else {
      OthersKeepWorkers(s, e, k);
      hide Apply;
    }
  }

  lemma NextPasses(w: Worker, e: Event, stopFlag: bool, lockFree: bool)
    ensures NextWorker(w, e, stopFlag, lockFree) == w || Passes(w, e, NextWorker(w, e, stopFlag, lockFree))
  {
  }

  lemma OthersKeepWorkers(s: State, e: Event, k: nat)
    requires k < |s.workers| == |s.chunks| && (OfWorker(e) ==> e.k >= |s.workers|)
    ensures k < |Apply(s, e).workers| && Apply(s, e).workers[k] == s.workers[k]
  {
    StartAddsWorker(s);
    hide StartStep, TornDown, LockFree, WorkerStep;
    TeardownKeepsWorkers(s);
  }

  lemma TeardownKeepsWorkers(s: State)
    ensures TornDown(s).workers == s.workers
  {
  }

  lemma StartAddsWorker(s: State)
    ensures s.workers <= StartStep(s).workers
  {
    hide LockFree;
  }

  /** The flag is set by an abort, a stop's beginning, a drained worker, and any
      teardown; only a start clears it. */
  lemma FlagIsSetBy(s: State, e: Event)
    requires Inv(s)
    ensures Apply(s, e).stopFlag && !s.stopFlag ==>
      e.SelfAbort? || (e.StopBegins? && LockFree(s) && !s.stopped)
      || (e.FinishDrain? && e.k < |s.workers| && s.workers[e.k] == Draining)
    ensures !Apply(s, e).stopFlag && s.stopFlag ==> e.Start?
  {
    hide LockFree, NextWorker;
  }

  /** The lock is held by a stop that waits and by a worker that warms up. */
  lemma LockIs(s: State)
    requires Inv(s)
    ensures LockFree(s) <==> !s.stopping && (s.workers != [] ==> s.workers[|s.workers| - 1] != Warming)
  {
  }

  /** A stop sets the flag and takes the lock, unless the lock is taken or the
      engine stopped; its end tears the run down; an abort only sets the flag. */
  lemma StopIs(s: State)
    requires Inv(s)
    ensures Apply(s, StopBegins) == if LockFree(s) && !s.stopped then s.(stopping := true, stopFlag := true) else s
    ensures var t := Apply(s, StopEnds);
      if !s.stopping then t == s
      else t.stopped && t.stopFlag && !t.stopping && !Active(t) && t.gc == Leaves(s) && t.workers == s.workers && t.chunks == s.chunks
    ensures Apply(s, SelfAbort) == s.(stopFlag := true)
    ensures forall on: bool :: Apply(s, HostSetsGc(on)) == s.(gc := on, host := on)
  {
    hide StartStep, WorkerStep;
  }

  // ---------- main theorems ----------

  /** At most one worker is ever alive, and it is the latest. */
  lemma AtMostOneWorker(gc: bool, events: seq<Event>, j: nat, k: nat)
    requires var s := Run(gc, events);
      j < |s.workers| && k < |s.workers| && s.workers[j] != Dead && s.workers[k] != Dead
    ensures j == k == |Run(gc, events).workers| - 1
  {
    RunKeepsInv(gc, events);
    hide Run;
  }

  /** The stop flag is cleared only by a start, and only when no worker is alive. */
  lemma FlagClearedWhenIdle(gc: bool, events: seq<Event>, e: Event)
    requires Run(gc, events).stopFlag && !Apply(Run(gc, events), e).stopFlag
    ensures e.Start? && forall k :: 0 <= k < |Run(gc, events).workers| ==> Run(gc, events).workers[k] == Dead
  {
    RunKeepsInv(gc, events);
    hide Run;
  }

  /** Every earlier run has been torn down when a run begins, which finds the
      collector as that teardown or the host left it, not as the engine set it. */
  lemma RunsBeginClean(gc: bool, events: seq<Event>)
    requires var s := Run(gc, events); |Apply(s, Start).workers| > |s.workers|
    ensures var s := Run(gc, events); var t := Apply(s, Start);
      t.torn == |s.workers| && t.found == Leaves(s) && t.workers == s.workers + [Spawned] && !t.gc
  {
    RunKeepsInv(gc, events);
    StepKeepsInv(Run(gc, events), Start);
    hide Run;
  }

  /** The teardown of a run leaves the collector on if the run's start found it on,
      otherwise as the host last left it. */
  lemma CollectorRestored(gc: bool, events: seq<Event>, e: Event)
    requires Active(Run(gc, events)) && !Active(Apply(Run(gc, events), e))
    ensures Apply(Run(gc, events), e).gc == (Run(gc, events).found || Run(gc, events).host)
  {
    RunKeepsInv(gc, events);
    StepKeepsInv(Run(gc, events), e);
    hide Run;
  }

  predicate HostIdle(events: seq<Event>) {
    forall i :: 0 <= i < |events| ==> !events[i].HostSetsGc?
  }

  /** While the host leaves the collector alone, what it is set to outside the
      runs never changes: every teardown restores exactly that. */
  lemma {:induction false} IdleHostKept(s: State, events: seq<Event>)
    requires Inv(s) && HostIdle(events)
    ensures Leaves(Steps(s, events)) == Leaves(s)
    ensures !Active(Steps(s, events)) ==> Steps(s, events).gc == Leaves(s)
  {
    if events != [] {
      var init, e := events[..|events| - 1], events[|events| - 1];
      assert HostIdle(init);
      IdleHostKept(s, init);
      StepsKeepInv(s, init);
      IdleHostStep(Steps(s, init), e);
      StepKeepsInv(Steps(s, init), e);
      hide Steps, Leaves;
      LeavesWhenIdle(Apply(Steps(s, init), e));
    } else {
      LeavesWhenIdle(s);
    }
  }

  lemma LeavesWhenIdle(s: State)
    requires Inv(s)
    ensures !Active(s) ==> s.gc == Leaves(s)
  {
  }

  lemma IdleHostStep(s: State, e: Event)
    requires Inv(s) && !e.HostSetsGc?
    ensures Leaves(Apply(s, e)) == Leaves(s)
  {
  }

  /** Once the stop flag is set while a worker lives, that worker begins no
      further chunk and, if it had not warmed up, never will, whatever happens;
      the flag stays set and no new worker appears until it is gone. */
  lemma {:induction false} StopIsNotLost(s: State, events: seq<Event>)
    requires Inv(s) && s.stopFlag && s.workers != [] && s.workers[|s.workers| - 1] != Dead
    ensures var k := |s.workers| - 1; var t := Steps(s, events);
      && k < |t.workers| && k < |t.chunks| && t.chunks[k] == s.chunks[k]
      && (t.workers[k] != Dead ==> t.stopFlag && |t.workers| == k + 1)
      && (s.workers[k] == Spawned ==> t.workers[k] == Spawned || t.workers[k] == Dead)
  {
    if events != [] {
      var init := events[..|events| - 1];
      StopIsNotLost(s, init);
      StepsKeepInv(s, init);
      hide Steps;
      StopStep(Steps(s, init), |s.workers| - 1, events[|events| - 1]);
    }
  }

  lemma StopStep(s: State, k: nat, e: Event)
    requires Inv(s) && k < |s.workers|
    requires s.workers[k] != Dead ==> s.stopFlag && |s.workers| == k + 1
    ensures var t := Apply(s, e);
      && k < |t.workers| && k < |t.chunks| && t.chunks[k] == s.chunks[k]
      && (t.workers[k] != Dead ==> t.stopFlag && |t.workers| == k + 1)
      && (s.workers[k] == Spawned || s.workers[k] == Dead ==> t.workers[k] == Spawned || t.workers[k] == Dead)
      && (s.workers[k] == Dead ==> t.workers[k] == Dead)
  {
    if OfWorker(e) {
      if e.k < |s.workers| {
        StoppedWorkerStep(s, k, e);
      }
    }
    hide WorkerStep;
  }

  lemma StoppedWorkerStep(s: State, k: nat, e: Event)
    requires OfWorker(e) && k < |s.workers| == |s.chunks| && e.k < |s.workers|
    requires s.workers[k] != Dead ==> s.stopFlag
    ensures var t := WorkerStep(s, e.k, e);
      && |t.workers| == |t.chunks| == |s.workers| && t.chunks[k] == s.chunks[k]
      && (s.stopFlag ==> t.stopFlag)
      && (s.workers[k] == Spawned || s.workers[k] == Dead ==> t.workers[k] == Spawned || t.workers[k] == Dead)
      && (s.workers[k] == Dead ==> t.workers[k] == Dead)
  {
  }

  // ---------- the locked sections as the engine runs them ----------

  /** The engine's lifecycle fields. The worker threads change them between the
      sections below, each of which holds the lifecycle lock. */
  class Engine {
    var workers: seq<Worker>
    var chunks: seq<nat>
    var stopping: bool
    var stopFlag: bool
    var stopped: bool
    var gcEnabled: bool
    var gcWasEnabledBeforeStart: bool
    ghost var found: bool
    ghost var host: bool
    ghost var torn: nat

    ghost function View(): State
      reads this
    {
      State(workers, chunks, stopping, stopFlag, stopped, gcEnabled, gcWasEnabledBeforeStart, found, host, torn)
    }

    constructor (gc: bool)
      ensures View() == InitialState(gc)
    {
      workers, chunks := [], [];
      stopping, stopFlag, stopped := false, false, false;
      gcEnabled, gcWasEnabledBeforeStart := gc, false;
      found, host, torn := gc, gc, 0;
    }

    /** Returns at once while a worker is alive; tears down a run that ended
        without stop; then begins the next one. */
    method Start()
      requires Inv(View()) && LockFree(View())
      modifies this
      ensures View() == Apply(old(View()), Event.Start) && Inv(View())
    {
      hide Inv, LockFree, Begun, TornDown;
      StartKeepsInv(View());
      if |workers| > 0 && workers[|workers| - 1] != Dead {
        return;
      }
      if |workers| > 0 && !stopped {
        TeardownLocked();
      }
      Begin();
    }

    method Begin()
      modifies this
      ensures View() == Begun(old(View()))
    {
      stopFlag := false;
      stopped := false;
      gcWasEnabledBeforeStart := gcEnabled;
      found := gcEnabled;
      if gcWasEnabledBeforeStart {
        gcEnabled := false;
      }
      workers := workers + [Spawned];
      chunks := chunks + [0];
    }

    /** Teardown once the worker has been waited for, in vain or not. */
    method TeardownLocked()
      modifies this
      ensures View() == TornDown(old(View()))
    {
      stopFlag := true;
      if gcWasEnabledBeforeStart {
        gcEnabled := true;
        gcWasEnabledBeforeStart := false;
      }
      host := gcEnabled;
      stopped := true;
      torn := |workers|;
    }

    /** stop up to its wait for the worker; false when there is nothing to stop. */
    method StopBegin() returns (waiting: bool)
      requires Inv(View()) && LockFree(View())
      modifies this
      ensures View() == Apply(old(View()), StopBegins) && Inv(View()) && waiting == !old(stopped)
    {
      StepKeepsInv(View(), StopBegins);
      if stopped {
        return false;
      }
      stopping := true;
      stopFlag := true;
      return true;
    }

    /** stop after the wait. */
    method StopEnd()
      requires Inv(View()) && stopping
      modifies this
      ensures View() == Apply(old(View()), StopEnds) && Inv(View()) && stopped
      ensures gcEnabled == old(Leaves(View()))
    {
      StepKeepsInv(View(), StopEnds);
      TeardownLocked();
      stopping := false;
    }
  }
}
