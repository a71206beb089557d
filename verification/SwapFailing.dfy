// What failing the pending swaps achieves: when it is sure to leave no caller
// waiting, and which requests can still be applied after they failed.
module SwapFailing {
  import opened SwapQueue

  // ---------- no stranded waiter ----------

  /** What a failer holds is neither outstanding nor queued any more. */
  predicate HeldApart(s: State) {
    forall g, r :: g in s.failers && r in s.failers[g].rest ==> r !in s.outstanding && r !in s.queue
  }

  /** After its first step a failer's list only shrinks. */
  lemma ListsShrink(s: State, e: Event, g: Who)
    requires !e.BeginFailing? && g in FailerStep(s, e).failers
    ensures var t := FailerStep(s, e);
      && t.queue == s.queue && t.outstanding == s.outstanding && s.completed <= t.completed
      && g in s.failers && forall r :: r in t.failers[g].rest ==> r in s.failers[g].rest
  {
    var t := FailerStep(s, e);
    assert t.failers[g].rest == s.failers[g].rest || t.failers[g].rest == s.failers[g].rest[1..];
  }

  lemma FirstStep(s: State, who: Who, g: Who)
    requires g in FailerStep(s, BeginFailing(who)).failers
    ensures var t := FailerStep(s, BeginFailing(who));
      && t.completed == s.completed && (t.outstanding == s.outstanding || t.outstanding == [])
      && (t.queue == s.queue || t.queue == [])
      && ((t.failers[g].rest == s.outstanding + s.queue && t.outstanding == [] && t.queue == [])
          || (g in s.failers && t.failers[g].rest == s.failers[g].rest))
  {
  }

  lemma ApartByFailer(s: State, e: Event)
    requires HeldApart(s)
    ensures HeldApart(FailerStep(s, e))
  {
    hide FailerStep;
    var t := FailerStep(s, e);
    forall g, r | g in t.failers && r in t.failers[g].rest ensures r !in t.outstanding && r !in t.queue {
      if e.BeginFailing? {
        FirstStep(s, e.who, g);
      } else {
        ListsShrink(s, e, g);
      }
    }
  }

  lemma ApartByOthers(s: State, e: Event)
    requires HeldApart(s) && KnownOnly(s)
    ensures HeldApart(CallerStep(s, e)) && HeldApart(WorkerStep(s, e))
  {
  }

  lemma ApartByLoop(s: State, e: Event)
    requires HeldApart(s)
    ensures HeldApart(LoopStep(s, e)) && HeldApart(LifecycleStep(s, e))
  {
    hide NextWorker;
  }

  lemma KnownFromInv(s: State)
    requires Inv(s)
    ensures KnownOnly(s)
  {
  }

  lemma {:induction false} RunKeepsApart(events: seq<Event>)
    ensures HeldApart(Run(events))
  {
    if events != [] {
      var init := events[..|events| - 1];
      var s, e := Run(init), events[|events| - 1];
      RunKeepsApart(init);
      RunKeepsInv(init);
      KnownFromInv(s);
      ApartByFailer(s, e);
      ApartByOthers(s, e);
      ApartByLoop(s, e);
      Dispatch(s, e);
      hide HeldApart, FailerStep, CallerStep, WorkerStep, LoopStep, LifecycleStep, Apply, Inv, KnownOnly;
    }
  }

  lemma HeldCompletedStep(s: State, who: Who, e: Event)
    requires s.outstanding == [] && s.queue == [] && !OtherFailerBusy(s, who)
    ensures !OtherFailerBusy(Apply(s, e), who)
  {
    hide *;
    Dispatch(s, e);
    HeldCompletedByFailer(s, who, e);
    HeldCompletedByOthers(s, who, e);
  }

  lemma HeldCompletedByFailer(s: State, who: Who, e: Event)
    requires s.outstanding == [] && s.queue == [] && !OtherFailerBusy(s, who)
    ensures !OtherFailerBusy(FailerStep(s, e), who)
  {
    hide FailerStep;
    var t := FailerStep(s, e);
    forall g, r | g in t.failers && g != who && r in t.failers[g].rest ensures r in t.completed {
      if e.BeginFailing? {
        FirstStep(s, e.who, g);
      } else {
        ListsShrink(s, e, g);
      }
    }
  }

  lemma HeldCompletedByOthers(s: State, who: Who, e: Event)
    requires !OtherFailerBusy(s, who)
    ensures !OtherFailerBusy(CallerStep(s, e), who) && !OtherFailerBusy(LifecycleStep(s, e), who)
    ensures !OtherFailerBusy(LoopStep(s, e), who) && !OtherFailerBusy(WorkerStep(s, e), who)
  {
    OthersKeepFailers(s, e);
    OthersKeepCompleted(s, e);
    hide CallerStep, LifecycleStep, LoopStep, WorkerStep;
  }

  lemma OthersKeepCompleted(s: State, e: Event)
    ensures s.completed <= CallerStep(s, e).completed && s.completed <= LifecycleStep(s, e).completed
    ensures s.completed <= LoopStep(s, e).completed && s.completed <= WorkerStep(s, e).completed
  {
  }

  lemma {:induction false} HeldStayCompleted(s: State, who: Who, after: seq<Event>)
    requires Inv(s) && who in s.failers && !OtherFailerBusy(s, who) && s.outstanding == [] && s.queue == []
    requires WithoutEnd(after, who)
    ensures !OtherFailerBusy(Steps(s, after), who)
  {
    if after != [] {
      var init := after[..|after| - 1];
      assert WithoutEnd(init, who);
      HeldStayCompleted(s, who, init);
      StaysDrained(s, who, init);
      HeldCompletedStep(Steps(s, init), who, after[|after| - 1]);
    }
    hide Apply, OtherFailerBusy, Inv;
  }

  /** A failer's own steps carry it to its end and complete nothing but what it
      holds. */
  lemma {:induction false} OwnFinish(s: State, who: Who) returns (after: seq<Event>)
    requires who in s.failers && FoundBeforeMarked(s.failers)
    ensures WithoutEnd(after, who) && AtEnd(Steps(s, after), who) && Steps(s, after).next == s.next
    ensures forall r :: r !in s.failers[who].rest ==> (r in Steps(s, after).completed <==> r in s.completed)
    decreases StepsLeft(s.failers[who])
  {
    if s.failers[who].rest == [] {
      after := [];
    } else {
      var own := OwnNext(s.failers[who], who);
      OwnStepEffect(s, who);
      var rest := OwnFinish(Apply(s, own), who);
      after := [own] + rest;
      StepsCons(s, own, rest);
      hide Apply, Steps;
    }
  }

  lemma OwnStepEffect(s: State, who: Who)
    requires who in s.failers && s.failers[who].rest != [] && FoundBeforeMarked(s.failers)
    ensures var own := OwnNext(s.failers[who], who); var t := Apply(s, own);
      && own != EndFailing(who) && t.next == s.next && FoundBeforeMarked(t.failers)
      && who in t.failers && 0 <= StepsLeft(t.failers[who]) < StepsLeft(s.failers[who])
      && (forall r :: r in t.failers[who].rest ==> r in s.failers[who].rest)
      && (forall r :: r !in s.failers[who].rest ==> (r in t.completed <==> r in s.completed))
  {
    hide WorkerStep, CallerStep, LoopStep, LifecycleStep;
  }

  lemma HeadVisited(s: State, who: Who) returns (own: seq<Event>)
    requires who in s.failers && s.failers[who].rest != [] && !s.failers[who].found && !s.failers[who].marked
    ensures WithoutEnd(own, who)
    ensures var t, r := Steps(s, own), s.failers[who].rest[0];
      t == s.(failers := s.failers[who := Failer(s.failers[who].rest[1..], false, false)],
              failed := if r in s.completed then s.failed else s.failed + {r}, completed := s.completed + {r})
  {
    hide *;
    if s.failers[who].rest[0] in s.completed {
      own := [CheckHead(who)];
      OneStep(s, CheckHead(who));
      OfFailers(who);
      FailerOnly(s, CheckHead(who));
      HeadSkipped(s, who);
    } else {
      own := [CheckHead(who), MarkHead(who), ReleaseHead(who)];
      ThreeOwn(s, who);
      MarkedAndReleased(s, who);
    }
    NotTheEnd(who);
  }

  lemma OfFailers(who: Who)
    ensures OfFailer(CheckHead(who)) && OfFailer(MarkHead(who)) && OfFailer(ReleaseHead(who))
  {
  }

  lemma NotTheEnd(who: Who)
    ensures WithoutEnd([CheckHead(who)], who) && WithoutEnd([CheckHead(who), MarkHead(who), ReleaseHead(who)], who)
  {
  }

  lemma ThreeOwn(s: State, who: Who)
    ensures Steps(s, [CheckHead(who), MarkHead(who), ReleaseHead(who)])
         == FailerStep(FailerStep(FailerStep(s, CheckHead(who)), MarkHead(who)), ReleaseHead(who))
  {
    hide *;
    OfFailers(who);
    var checked := Apply(s, CheckHead(who));
    var marked := Apply(checked, MarkHead(who));
    FailerOnly(s, CheckHead(who));
    FailerOnly(checked, MarkHead(who));
    FailerOnly(marked, ReleaseHead(who));
    ThreeThen(s, CheckHead(who), MarkHead(who), ReleaseHead(who), []);
    var own := [CheckHead(who), MarkHead(who), ReleaseHead(who)];
    assert own + [] == own;
    OneStep(Apply(marked, ReleaseHead(who)), CheckHead(who));
  }

  lemma HeadSkipped(s: State, who: Who)
    requires who in s.failers && s.failers[who].rest != [] && !s.failers[who].found && s.failers[who].rest[0] in s.completed
    ensures FailerStep(s, CheckHead(who)) == s.(failers := s.failers[who := Failer(s.failers[who].rest[1..], false, false)])
    ensures s.completed + {s.failers[who].rest[0]} == s.completed
  {
  }

  lemma MarkedAndReleased(s: State, who: Who)
    requires who in s.failers && s.failers[who].rest != [] && !s.failers[who].found && !s.failers[who].marked
    requires s.failers[who].rest[0] !in s.completed
    ensures var r := s.failers[who].rest[0];
      FailerStep(FailerStep(FailerStep(s, CheckHead(who)), MarkHead(who)), ReleaseHead(who))
        == s.(failers := s.failers[who := Failer(s.failers[who].rest[1..], false, false)],
              failed := s.failed + {r}, completed := s.completed + {r})
  {
    var f := s.failers[who];
    var checked := FailerStep(s, CheckHead(who));
    assert checked == s.(failers := s.failers[who := f.(found := true)]);
    var marked := FailerStep(checked, MarkHead(who));
    assert marked == s.(failers := s.failers[who := Failer(f.rest, true, true)], failed := s.failed + {f.rest[0]});
  }

  /** With no step of anyone else between, a failer completes what it holds and
      fails exactly what was not completed before, as the call on the object does. */
  lemma {:induction false} FailingAlone(s: State, who: Who) returns (after: seq<Event>)
    requires who in s.failers && !s.failers[who].found && !s.failers[who].marked
    ensures WithoutEnd(after, who)
    ensures var t, held := Steps(s, after), s.failers[who].rest;
      && t == s.(failers := s.failers[who := Failer([], false, false)], failed := t.failed, completed := t.completed)
      && (forall r :: r in t.completed <==> r in s.completed || r in held)
      && (forall r :: r in t.failed <==> r in s.failed || (r in held && r !in s.completed))
    decreases |s.failers[who].rest|
  {
    if s.failers[who].rest == [] {
      after := [];
      assert s.failers[who := s.failers[who]] == s.failers;
    } else {
      var own := HeadVisited(s, who);
      var rest := FailingAlone(Steps(s, own), who);
      after := own + rest;
      StepsConcat(s, own, rest);
      hide Steps;
    }
  }

  /** However the others interleave, the call at work in s ends with every
      request completed. */
  ghost predicate AlwaysResolves(s: State, who: Who) {
    forall after: seq<Event> ::
      WithoutEnd(after, who) && AtEnd(Steps(s, after), who) ==> AllCompleted(Steps(s, after))
  }

  lemma BeginDrains(s: State, who: Who)
    requires CanBegin(s, who)
    ensures var t := Apply(s, BeginFailing(who));
      && t.outstanding == [] && t.queue == [] && t.next == s.next && t.completed == s.completed
      && t.failers == s.failers[who := Failer(s.outstanding + s.queue, false, false)]
      && (OtherFailerBusy(t, who) <==> OtherFailerBusy(s, who))
  {
    hide WorkerStep, CallerStep, LoopStep, LifecycleStep;
    var t := Apply(s, BeginFailing(who));
    if OtherFailerBusy(s, who) {
      var g, r :| g in s.failers && g != who && r in s.failers[g].rest && r !in s.completed;
      assert g in t.failers && r in t.failers[g].rest;
    }
    if OtherFailerBusy(t, who) {
      var g, r :| g in t.failers && g != who && r in t.failers[g].rest && r !in t.completed;
      assert g in s.failers && r in s.failers[g].rest;
    }
  }

  /** A call that fails the pending requests is sure to leave none incomplete when
      it returns if and only if at its beginning the other party holds no
      incomplete one. */
  lemma FailerResolvesAll(before: seq<Event>, who: Who)
    requires CanBegin(Run(before), who)
    ensures AlwaysResolves(Apply(Run(before), BeginFailing(who)), who) <==> !OtherFailerBusy(Run(before), who)
  {
    hide *;
    if OtherFailerBusy(Run(before), who) {
      BusyFailerStrands(before, who);
    } else {
      IdleOthersResolve(before, who);
    }
  }

  lemma IdleOthersResolve(before: seq<Event>, who: Who)
    requires CanBegin(Run(before), who) && !OtherFailerBusy(Run(before), who)
    ensures AlwaysResolves(Apply(Run(before), BeginFailing(who)), who)
  {
    hide Run, Apply, OtherFailerBusy, AllCompleted, CanBegin, Inv;
    var s := Apply(Run(before), BeginFailing(who));
    BeginDrains(Run(before), who);
    RunKeepsInv(before);
    StepKeepsInv(Run(before), BeginFailing(who));
    forall after: seq<Event> | WithoutEnd(after, who) && AtEnd(Steps(s, after), who)
      ensures AllCompleted(Steps(s, after))
    {
      HeldStayCompleted(s, who, after);
      IncompleteIsHeld(before, who, after);
    }
  }

  /** A continuation that strands a caller: the call runs to its end while the
      other party, holding the request, does not move. */
  lemma BusyFailerStrands(before: seq<Event>, who: Who)
    requires CanBegin(Run(before), who) && OtherFailerBusy(Run(before), who)
    ensures !AlwaysResolves(Apply(Run(before), BeginFailing(who)), who)
  {
    hide *;
    var r := SomeHeld(before, who);
    RunKeepsInv(before);
    InvGives(Run(before), who);
    var s := Apply(Run(before), BeginFailing(who));
    var after := OwnFinish(s, who);
    Stranded(s, who, after, r);
  }

  /** The request the other party holds, seen right after this one has begun. */
  lemma SomeHeld(before: seq<Event>, who: Who) returns (r: Request)
    requires CanBegin(Run(before), who) && OtherFailerBusy(Run(before), who)
    ensures var s := Apply(Run(before), BeginFailing(who));
      who in s.failers && r < s.next && r !in s.completed && r !in s.failers[who].rest
  {
    var s0 := Run(before);
    RunKeepsApart(before);
    RunKeepsInv(before);
    hide Run, Apply, InOrder, HeadNotQueued, NoneLost, MarksTrue, Honest, Locked, CanBegin;
    var g :| g in s0.failers && g != who && exists r :: r in s0.failers[g].rest && r !in s0.completed;
    r :| r in s0.failers[g].rest && r !in s0.completed;
    BeginDrains(s0, who);
  }

  lemma InvGives(s: State, who: Who)
    requires Inv(s)
    ensures FoundBeforeMarked(Apply(s, BeginFailing(who)).failers)
  {
    FoundBeforeMarkedKept(s, BeginFailing(who));
  }

  lemma Stranded(s: State, who: Who, after: seq<Event>, r: Request)
    requires WithoutEnd(after, who) && AtEnd(Steps(s, after), who)
    requires r < Steps(s, after).next && r !in Steps(s, after).completed
    ensures !AlwaysResolves(s, who)
  {
    hide Steps, WithoutEnd;
    assert !AllCompleted(Steps(s, after));
  }

  // ---------- which requests can still be applied ----------

  /** The worker can still come to drain the queue: there is none yet and no
      teardown; or it has passed the flag test; or the flag is clear and nothing
      has ended its loop. */
  predicate QueueLives(s: State) {
    match s.worker
    case Absent => s.teardown.Idle?
    case Entered => true
    case Busy(_, _, throwing) => !s.closed && !throwing
    case Leaving | Resolving | Finishing | Dead => false
    case _ => !s.closed
  }

  /** Ahead of a worker that no exception has stopped. */
  predicate InLiveBatch(s: State, r: Request) {
    s.worker.Busy? && !s.worker.throwing && r in Batch(s.worker)
  }

  /** Already applied, in a queue that can still be drained, or in a live batch. */
  predicate MayApply(s: State, r: Request) {
    r in s.applied || (r in s.queue && QueueLives(s)) || InLiveBatch(s, r)
  }

  lemma NotAppliedStep(s: State, r: Request, e: Event)
    requires Locked(s) && r < s.next && !MayApply(s, r)
    ensures r < Apply(s, e).next && !MayApply(Apply(s, e), r)
  {
    hide *;
    Dispatch(s, e);
    NotAppliedByLoop(s, r, e);
    NotAppliedByOthers(s, r, e);
  }

  lemma NotAppliedByLoop(s: State, r: Request, e: Event)
    requires Locked(s) && r < s.next && !MayApply(s, r)
    ensures r < LoopStep(s, e).next && !MayApply(LoopStep(s, e), r)
    ensures r < LifecycleStep(s, e).next && !MayApply(LifecycleStep(s, e), r)
  {
  }

  lemma NotAppliedByOthers(s: State, r: Request, e: Event)
    requires Locked(s) && r < s.next && !MayApply(s, r)
    ensures r < CallerStep(s, e).next && !MayApply(CallerStep(s, e), r)
    ensures r < WorkerStep(s, e).next && !MayApply(WorkerStep(s, e), r)
    ensures r < FailerStep(s, e).next && !MayApply(FailerStep(s, e), r)
  {
    NotAppliedByWorker(s, r, e);
    NotAppliedByFailer(s, r, e);
    hide WorkerStep, FailerStep, Locked;
  }

  lemma NotAppliedByWorker(s: State, r: Request, e: Event)
    requires r < s.next && !MayApply(s, r)
    ensures r < WorkerStep(s, e).next && !MayApply(WorkerStep(s, e), r)
  {
    hide Without;
  }

  lemma NotAppliedByFailer(s: State, r: Request, e: Event)
    requires Locked(s) && r < s.next && !MayApply(s, r)
    ensures r < FailerStep(s, e).next && !MayApply(FailerStep(s, e), r)
  {
  }

  lemma {:induction false} NeverAppliedFrom(s: State, r: Request, after: seq<Event>)
    requires Inv(s) && r < s.next && !MayApply(s, r)
    ensures Inv(Steps(s, after)) && r < Steps(s, after).next && !MayApply(Steps(s, after), r)
  {
    if after != [] {
      var init, e := after[..|after| - 1], after[|after| - 1];
      NeverAppliedFrom(s, r, init);
      StepKeepsInv(Steps(s, init), e);
      LockedFromInv(Steps(s, init));
      NotAppliedStep(Steps(s, init), r, e);
    }
    hide Apply, MayApply, Inv;
  }

  lemma LockedFromInv(s: State)
    requires Inv(s)
    ensures Locked(s)
  {
  }

  /** A request that is past the worker, or queued where no worker will drain it,
      is never applied, in any continuation. */
  lemma NeverApplied(before: seq<Event>, r: Request, after: seq<Event>)
    requires r < Run(before).next && !MayApply(Run(before), r)
    ensures r !in Steps(Run(before), after).applied && !MayApply(Steps(Run(before), after), r)
  {
    RunKeepsInv(before);
    NeverAppliedFrom(Run(before), r, after);
    hide Run, Steps, Inv;
  }

  /** How far the worker is from the end of its batch. */
  function WorkLeft(w: Worker): int {
    if !w.Busy? then 0 else 3 * |w.batch| - (if w.phase.Trying? then 0 else if w.phase.Marked? then 1 else 2)
  }

  /** The next step of a batch that no exception has stopped. */
  function BatchNext(w: Worker, attempt: Event): Event
    requires w.Busy?
  {
    if w.phase.Trying? then attempt else if w.phase.Marked? then Release else Forget
  }

  /** A batch no exception has stopped. */
  predicate LiveBatch(w: Worker) {
    w.Busy? && !w.throwing && w.batch != []
  }

  lemma BatchMoves(s: State, attempt: Event)
    requires LiveBatch(s.worker) && (attempt == TrySucceeds || attempt == TryFails)
    ensures var t := Apply(s, BatchNext(s.worker, attempt));
      && 0 <= WorkLeft(t.worker) < WorkLeft(s.worker) && t.queue == s.queue && t.closed == s.closed && t.teardown == s.teardown
      && (LiveBatch(t.worker) || t.worker == InChunk)
  {
    hide FailerStep, CallerStep, LoopStep, LifecycleStep;
  }

  lemma LiveMoves(s: State, r: Request)
    requires LiveBatch(s.worker) && r in Batch(s.worker)
    ensures var t := Apply(s, BatchNext(s.worker, TrySucceeds));
      r in t.applied || (t.worker.Busy? && r in Batch(t.worker))
  {
    hide FailerStep, CallerStep, LoopStep, LifecycleStep;
  }

  lemma {:induction false} LiveBatchApplies(s: State, r: Request) returns (after: seq<Event>)
    requires LiveBatch(s.worker) && r in Batch(s.worker)
    ensures r in Steps(s, after).applied
    decreases WorkLeft(s.worker)
  {
    var e := BatchNext(s.worker, TrySucceeds);
    BatchMoves(s, TrySucceeds);
    LiveMoves(s, r);
    var t := Apply(s, e);
    hide Apply, Batch;
    if r in t.applied {
      after := [e] + [];
      StepsCons(s, e, []);
    } else {
      var rest := LiveBatchApplies(t, r);
      after := [e] + rest;
      StepsCons(s, e, rest);
    }
  }

  /** The next step towards draining the queue. */
  function TowardsDrain(w: Worker): Event {
    match w
    case Absent => Start
    case Spawned => TakeLock
    case Warming => WarmUp(true)
    case Preparing => EnterLoop
    case AtTop => TestFlag
    case Busy(_, _, _) => BatchNext(w, TryFails)
    case InChunk => EndChunk
    case _ => Drain
  }

  function StepsToDrain(w: Worker): int {
    match w
    case AtTop => 1
    case InChunk => 2
    case Preparing => 2
    case Warming => 3
    case Spawned => 4
    case Absent => 5
    case Busy(_, _, _) => 3 + WorkLeft(w)
    case _ => 0
  }

  /** What draining needs, besides a worker that will: a batch at work is not
      empty, and a teardown has set the flag. */
  predicate Draining(s: State) {
    && QueueLives(s) && (s.worker.Busy? ==> s.worker.batch != [])
    && (!s.teardown.Idle? ==> s.closed)
  }

  lemma DrainNears(s: State)
    requires Draining(s) && s.worker != Entered
    ensures var t := Apply(s, TowardsDrain(s.worker));
      && 0 <= StepsToDrain(t.worker) < StepsToDrain(s.worker) && t.queue == s.queue && Draining(t)
  {
    if s.worker.Busy? {
      BatchMoves(s, TryFails);
      hide Apply;
    } else {
      LoopNears(s);
      hide Apply;
    }
  }

  lemma LoopNears(s: State)
    requires Draining(s) && s.worker != Entered && !s.worker.Busy?
    ensures var t := Apply(s, TowardsDrain(s.worker));
      && 0 <= StepsToDrain(t.worker) < StepsToDrain(s.worker) && t.queue == s.queue && Draining(t)
  {
    hide FailerStep, CallerStep, WorkerStep;
  }

  lemma {:induction false} QueuedApplies(s: State, r: Request) returns (after: seq<Event>)
    requires Draining(s) && r in s.queue
    ensures r in Steps(s, after).applied
    decreases StepsToDrain(s.worker)
  {
    if s.worker == Entered {
      DrainTakes(s);
      var rest := LiveBatchApplies(Apply(s, Drain), r);
      after := [Drain] + rest;
      StepsCons(s, Drain, rest);
    } else {
      var e := TowardsDrain(s.worker);
      DrainNears(s);
      var rest := QueuedApplies(Apply(s, e), r);
      after := [e] + rest;
      StepsCons(s, e, rest);
    }
    hide Apply, Steps, QueueLives;
  }

  lemma DrainTakes(s: State)
    requires s.worker == Entered && s.queue != []
    ensures Apply(s, Drain).worker == Busy(s.queue, Trying, false)
  {
  }

  ghost predicate CanBeApplied(s: State, r: Request) {
    exists after: seq<Event> :: r in Steps(s, after).applied
  }

  /** A request can still be applied, in some continuation, if and only if it
      already is, is in a queue that can still be drained, or in a live batch. */
  lemma AppliedExactly(events: seq<Event>, r: Request)
    requires r < Run(events).next
    ensures CanBeApplied(Run(events), r) <==> MayApply(Run(events), r)
  {
    hide *;
    RunKeepsInv(events);
    CanApplyFrom(Run(events), r);
  }

  lemma CanApplyFrom(s: State, r: Request)
    requires Inv(s) && r < s.next
    ensures CanBeApplied(s, r) <==> MayApply(s, r)
  {
    BusyNotEmpty(s);
    hide Steps, Batch, Inv, QueueLives;
    if r in s.applied {
      NoSteps(s);
      assert r in Steps(s, []).applied;
    } else if r in s.queue && QueueLives(s) {
      var after := QueuedApplies(s, r);
      assert r in Steps(s, after).applied;
    } else if InLiveBatch(s, r) {
      var after := LiveBatchApplies(s, r);
      assert r in Steps(s, after).applied;
    } else {
      forall after: seq<Event> ensures r !in Steps(s, after).applied {
        NeverAppliedFrom(s, r, after);
      }
    }
  }

  lemma BusyNotEmpty(s: State)
    requires Inv(s)
    ensures s.worker.Busy? ==> s.worker.batch != []
    ensures !s.teardown.Idle? ==> s.closed
  {
  }

  lemma NoSteps(s: State)
    ensures Steps(s, []) == s
  {
  }

  /** A request that a failer marks as failed is applied in some continuation if
      and only if it is applied already or is in a live batch; in every other
      case its failure is final. */
  lemma FailedMayApplyExactly(events: seq<Event>, who: Who)
    requires var s := Run(events);
      who in s.failers && s.failers[who].rest != [] && s.failers[who].found && !s.failers[who].marked
    ensures var s := Run(events); var r := s.failers[who].rest[0]; var t := Apply(s, MarkHead(who));
      r in t.failed && (CanBeApplied(t, r) <==> r in s.applied || InLiveBatch(s, r))
  {
    var s := Run(events);
    RunKeepsInv(events);
    RunKeepsApart(events);
    MarkOnly(s, who);
    StepKeepsInv(s, MarkHead(who));
    hide Run, Steps, CanBeApplied, Apply, Inv, Batch, QueueLives;
    CanApplyFrom(Apply(s, MarkHead(who)), s.failers[who].rest[0]);
  }

  lemma MarkOnly(s: State, who: Who)
    requires who in s.failers && s.failers[who].rest != [] && s.failers[who].found && !s.failers[who].marked
    requires HeldApart(s) && Inv(s)
    ensures var r := s.failers[who].rest[0]; var t := Apply(s, MarkHead(who));
      && r in t.failed && r < t.next && r !in t.queue && t.applied == s.applied && t.worker == s.worker
  {
    hide WorkerStep, CallerStep, LoopStep, LifecycleStep, InOrder, HeadNotQueued, NoneLost, MarksTrue, Honest, Locked;
    assert s.failers[who].rest[0] in s.failers[who].rest;
  }

  // ---------- a stop or an exception is final for the queue ----------

  /** Whatever is still queued while the worker is at a batch is never applied once
      the flag is set or an exception is on its way. */
  lemma QueueBehindTheLastBatch(events: seq<Event>, r: Request)
    requires var s := Run(events); s.worker.Busy? && (s.closed || s.worker.throwing) && r in s.queue
    ensures !CanBeApplied(Run(events), r)
  {
    RunKeepsInv(events);
    QueuedOnly(Run(events), r);
    AppliedExactly(events, r);
    hide Run, CanBeApplied, Batch;
  }

  /** A request is in one place on its way. */
  lemma QueuedOnly(s: State, r: Request)
    requires Inv(s) && r in s.queue
    ensures r < s.next && r !in Batch(s.worker) && r !in s.applied
  {
    var j :| 0 <= j < |s.queue| && s.queue[j] == r;
    hide Batch, NoneLost, Locked, MarksTrue, Honest, HeadNotQueued, FoundBeforeMarked;
  }
}
