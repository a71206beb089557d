// The swap bookkeeping as the engine holds it: fields updated in place by the
// caller's request, the worker's drain-and-apply loop and the teardown's loop,
// each run here without interference. SwapQueue interleaves their steps.
module SwapBoard {
  import opened SwapQueue

  /** How applying one request ends: the swap succeeds, fails and is reported, or
      throws and takes the worker down. */
  datatype Outcome = Succeeds | Fails | Throws

  /** The requests of a batch that are applied before one throws. */
  function AppliedPrefix(batch: seq<Request>, outcome: Request -> Outcome): seq<Request> {
    if batch == [] || outcome(batch[0]) == Throws then []
    else (if outcome(batch[0]) == Succeeds then [batch[0]] else []) + AppliedPrefix(batch[1..], outcome)
  }

  predicate SomeThrows(batch: seq<Request>, outcome: Request -> Outcome) {
    exists i :: 0 <= i < |batch| && outcome(batch[i]) == Throws
  }

  lemma {:induction false} WithoutAscending(s: seq<Request>, x: Request)
    requires Ascending(s)
    ensures Ascending(Without(s, x)) && x !in Without(s, x)
  {
    if s != [] {
      AscendingTail(s);
      if s[0] != x {
        WithoutAscending(s[1..], x);
        AscendingPrepend(s[0], Without(s[1..], x));
      }
    }
  }

  lemma AscendingTail(s: seq<Request>)
    requires Ascending(s) && s != []
    ensures Ascending(s[1..]) && s[0] !in s[1..] && forall y :: y in s[1..] ==> s[0] < y
  {
  }

  lemma AscendingPrepend(x: Request, t: seq<Request>)
    requires Ascending(t) && forall y :: y in t ==> x < y
    ensures Ascending([x] + t)
  {
    var s := [x] + t;
    forall i, j | 0 <= i < j < |s| ensures s[i] < s[j] {
      assert s[j] == t[j - 1] && t[j - 1] in t;
    }
  }

  lemma WithoutBelow(s: seq<Request>, x: Request, n: nat)
    requires Below(s, n)
    ensures Below(Without(s, x), n)
  {
    var t := Without(s, x);
    forall i | 0 <= i < |t| ensures t[i] < n {
      assert t[i] in s;
    }
  }

  // ---------- facts for the apply loop ----------

  ghost predicate Tracked(next: nat, completed: set<Request>, outstanding: seq<Request>) {
    forall r: nat :: r < next ==> r in completed || r in outstanding
  }

  lemma TrackedStep(next: nat, completed: set<Request>, outstanding: seq<Request>, r: Request)
    requires Tracked(next, completed, outstanding)
    ensures Tracked(next, completed + {r}, Without(outstanding, r))
  {
  }

  /** Batch members before i are completed and forgotten; others are untouched. */
  ghost predicate Settled(batch: seq<Request>, i: nat, completed0: set<Request>, outstanding0: seq<Request>,
                          completed: set<Request>, outstanding: seq<Request>)
  {
    && i <= |batch|
    && (forall j :: 0 <= j < i ==> batch[j] in completed && batch[j] !in outstanding)
    && (forall r :: r !in batch ==> (r in completed <==> r in completed0) && (r in outstanding <==> r in outstanding0))
  }

  lemma NothingSettled(batch: seq<Request>, completed: set<Request>, outstanding: seq<Request>)
    ensures Settled(batch, 0, completed, outstanding, completed, outstanding)
  {
  }

  lemma SettledStep(batch: seq<Request>, i: nat, completed0: set<Request>, outstanding0: seq<Request>,
                    completed: set<Request>, outstanding: seq<Request>)
    requires Settled(batch, i, completed0, outstanding0, completed, outstanding) && i < |batch| && Ascending(outstanding)
    ensures Settled(batch, i + 1, completed0, outstanding0, completed + {batch[i]}, Without(outstanding, batch[i]))
  {
    WithoutAscending(outstanding, batch[i]);
  }

  lemma SettledMeans(batch: seq<Request>, completed0: set<Request>, outstanding0: seq<Request>,
                     completed: set<Request>, outstanding: seq<Request>)
    requires Settled(batch, |batch|, completed0, outstanding0, completed, outstanding)
    ensures forall r :: r in batch ==> r in completed && r !in outstanding
    ensures forall r :: r !in batch ==> (r in completed <==> r in completed0) && (r in outstanding <==> r in outstanding0)
  {
  }

  /** What is applied so far and what is still to come make up the batch's share. */
  ghost predicate Remaining(applied0: seq<Request>, applied: seq<Request>, raised: bool, batch: seq<Request>, i: nat,
                            outcome: Request -> Outcome)
  {
    i <= |batch| && applied0 + AppliedPrefix(batch, outcome) == applied + if raised then [] else AppliedPrefix(batch[i..], outcome)
  }

  lemma NothingApplied(applied: seq<Request>, batch: seq<Request>, outcome: Request -> Outcome)
    ensures Remaining(applied, applied, false, batch, 0, outcome)
  {
    assert batch[0..] == batch;
  }

  lemma RemainingStep(applied0: seq<Request>, applied: seq<Request>, raised: bool, batch: seq<Request>, i: nat,
                      outcome: Request -> Outcome)
    requires Remaining(applied0, applied, raised, batch, i, outcome) && i < |batch|
    ensures var r := batch[i];
      Remaining(applied0, if !raised && outcome(r) == Succeeds then applied + [r] else applied,
                raised || outcome(r) == Throws, batch, i + 1, outcome)
  {
    hide AppliedPrefix;
    PrefixStep(batch, i, outcome);
    if !raised && outcome(batch[i]) == Succeeds {
      assert applied + ([batch[i]] + AppliedPrefix(batch[i + 1..], outcome))
          == applied + [batch[i]] + AppliedPrefix(batch[i + 1..], outcome);
    }
  }

  lemma PrefixStep(batch: seq<Request>, i: nat, outcome: Request -> Outcome)
    requires i < |batch|
    ensures var rest := AppliedPrefix(batch[i + 1..], outcome);
      AppliedPrefix(batch[i..], outcome) ==
        (if outcome(batch[i]) == Throws then [] else if outcome(batch[i]) == Succeeds then [batch[i]] + rest else rest)
  {
    assert batch[i..][0] == batch[i] && batch[i..][1..] == batch[i + 1..];
  }

  lemma BatchDone(applied0: seq<Request>, applied: seq<Request>, raised: bool, batch: seq<Request>,
                  outcome: Request -> Outcome)
    requires Remaining(applied0, applied, raised, batch, |batch|, outcome)
    ensures applied == applied0 + AppliedPrefix(batch, outcome)
  {
    assert batch[|batch|..] == [];
  }

  lemma NoneThrows(outcome: Request -> Outcome)
    ensures !SomeThrows([], outcome)
  {
  }

  /** The batch's i-th request is applied: it succeeds and none up to it throws. */
  ghost predicate Goes(batch: seq<Request>, i: nat, outcome: Request -> Outcome) {
    i < |batch| && outcome(batch[i]) == Succeeds && !SomeThrows(batch[..i], outcome)
  }

  ghost predicate FailedSoFar(batch: seq<Request>, i: nat, failed0: set<Request>, failed: set<Request>, outcome: Request -> Outcome) {
    i <= |batch| && forall r :: r in failed <==> r in failed0 || exists k: nat :: k < i && batch[k] == r && !Goes(batch, k, outcome)
  }

  lemma NoneFailed(batch: seq<Request>, failed: set<Request>, outcome: Request -> Outcome)
    ensures FailedSoFar(batch, 0, failed, failed, outcome)
  {
  }

  lemma FailedStep(batch: seq<Request>, i: nat, failed0: set<Request>, failed: set<Request>, raised: bool, outcome: Request -> Outcome)
    requires FailedSoFar(batch, i, failed0, failed, outcome) && i < |batch| && raised == SomeThrows(batch[..i], outcome)
    ensures FailedSoFar(batch, i + 1, failed0, if !raised && outcome(batch[i]) == Succeeds then failed else failed + {batch[i]}, outcome)
  {
    var after := if !raised && outcome(batch[i]) == Succeeds then failed else failed + {batch[i]};
    assert Goes(batch, i, outcome) <==> !raised && outcome(batch[i]) == Succeeds;
    hide Goes, SomeThrows;
    forall r ensures r in after <==> r in failed0 || exists k: nat :: k < i + 1 && batch[k] == r && !Goes(batch, k, outcome) {
      if k: nat :| k < i + 1 && batch[k] == r && !Goes(batch, k, outcome) {
        assert k < i || k == i;
      }
    }
  }

  /** The requests of a batch that are applied, each by its place. */
  lemma {:induction false} AppliedPrefixIs(batch: seq<Request>, outcome: Request -> Outcome, r: Request)
    ensures r in AppliedPrefix(batch, outcome) <==> exists k: nat :: Goes(batch, k, outcome) && batch[k] == r
  {
    if batch != [] && outcome(batch[0]) != Throws {
      AppliedPrefixIs(batch[1..], outcome, r);
      forall k: nat ensures Goes(batch, k + 1, outcome) <==> Goes(batch[1..], k, outcome) {
        GoesOn(batch, k, outcome);
      }
      assert batch[..0] == [];
      if r in AppliedPrefix(batch, outcome) {
        if outcome(batch[0]) == Succeeds && batch[0] == r {
          assert Goes(batch, 0, outcome);
        } else {
          var k: nat :| Goes(batch[1..], k, outcome) && batch[1..][k] == r;
          assert Goes(batch, k + 1, outcome);
        }
      }
      if k: nat :| Goes(batch, k, outcome) && batch[k] == r {
        if k > 0 {
          assert Goes(batch[1..], k - 1, outcome);
        }
      }
    } else if batch != [] {
      forall k: nat ensures !Goes(batch, k, outcome) {
        if 0 < k < |batch| {
          assert batch[..k][0] == batch[0];
        }
      }
    }
  }

  /** They are applied in the order of the calls. */
  lemma {:induction false} PrefixAscending(batch: seq<Request>, outcome: Request -> Outcome)
    requires Ascending(batch)
    ensures Ascending(AppliedPrefix(batch, outcome)) && forall y :: y in AppliedPrefix(batch, outcome) ==> y in batch
  {
    if batch != [] && outcome(batch[0]) != Throws {
      AscendingTail(batch);
      PrefixAscending(batch[1..], outcome);
      AscendingPrepend(batch[0], AppliedPrefix(batch[1..], outcome));
    }
  }

  lemma GoesOn(batch: seq<Request>, k: nat, outcome: Request -> Outcome)
    requires batch != [] && outcome(batch[0]) != Throws
    ensures Goes(batch, k + 1, outcome) <==> Goes(batch[1..], k, outcome)
  {
    if k + 1 < |batch| {
      assert batch[..k + 1] == [batch[0]] + batch[1..][..k];
      ThrowsCons(batch[0], batch[1..][..k], outcome);
    }
  }

  lemma ThrowsCons(r: Request, rest: seq<Request>, outcome: Request -> Outcome)
    requires outcome(r) != Throws
    ensures SomeThrows([r] + rest, outcome) == SomeThrows(rest, outcome)
  {
    if i: nat :| i < |rest| && outcome(rest[i]) == Throws {
      assert ([r] + rest)[i + 1] == rest[i];
    }
    if i: nat :| i < |[r] + rest| && outcome(([r] + rest)[i]) == Throws {
      assert rest[i - 1] == ([r] + rest)[i];
    }
  }

  lemma BatchFailed(batch: seq<Request>, failed0: set<Request>, failed: set<Request>, outcome: Request -> Outcome)
    requires FailedSoFar(batch, |batch|, failed0, failed, outcome) && Ascending(batch)
    ensures forall r :: r in failed <==> r in failed0 || (r in batch && r !in AppliedPrefix(batch, outcome))
  {
    hide AppliedPrefix, SomeThrows;
    forall r ensures r in failed <==> r in failed0 || (r in batch && r !in AppliedPrefix(batch, outcome)) {
      AppliedPrefixIs(batch, outcome, r);
      OnePlace(batch, r);
      if r in batch {
        var k: nat :| k < |batch| && batch[k] == r;
        assert r in AppliedPrefix(batch, outcome) <==> Goes(batch, k, outcome);
      }
    }
  }

  lemma OnePlace(batch: seq<Request>, r: Request)
    requires Ascending(batch)
    ensures forall j: nat, k: nat :: j < |batch| && k < |batch| && batch[j] == r && batch[k] == r ==> j == k
  {
  }

  lemma HonestStep(completed: set<Request>, failed0: set<Request>, applied0: seq<Request>,
                   failed: set<Request>, applied: seq<Request>, r: Request)
    requires Honest(completed, failed0, applied0)
    requires (applied == applied0 + [r] && failed == failed0) || (applied == applied0 && failed == failed0 + {r})
    ensures Honest(completed + {r}, failed, applied)
  {
  }

  class Board {
    var next: nat
    var closed: bool
    var queue: seq<Request>
    var outstanding: seq<Request>
    var completed: set<Request>
    var failed: set<Request>
    var applied: seq<Request>

    /** Requests in order, none lost, and completed without error means applied. */
    ghost predicate Valid()
      reads this
    {
      && Ascending(queue) && Ascending(outstanding) && Below(queue, next) && Below(outstanding, next)
      && QueuedOutstanding(queue, outstanding)
      && Honest(completed, failed, applied)
      && (forall r: nat :: r < next ==> r in completed || r in outstanding)
    }

    constructor ()
      ensures Valid() && next == 0 && !closed
    {
      next, closed, queue, outstanding := 0, false, [], [];
      completed, failed, applied := {}, {}, [];
    }

    /** A new request: queued, or on a closed engine failed at once. */
    method RequestModelSwap() returns (r: Request)
      requires Valid()
      modifies this
      ensures Valid() && r == old(next) && next == r + 1 && closed == old(closed) && applied == old(applied)
      ensures !closed ==> queue == old(queue) + [r] && outstanding == old(outstanding) + [r]
      ensures !closed ==> completed == old(completed) && failed == old(failed)
      ensures closed ==> queue == old(queue) && outstanding == old(outstanding)
      ensures closed ==> completed == old(completed) + {r} && failed == old(failed) + {r}
    {
      r := next;
      next := next + 1;
      if closed {
        failed := failed + {r};
        completed := completed + {r};
        return;
      }
      queue := queue + [r];
      outstanding := outstanding + [r];
    }

    /** Sets the completion event, then forgets the request. */
    method ResolveSwap(r: Request)
      requires Ascending(outstanding)
      modifies `completed, `outstanding
      ensures completed == old(completed) + {r} && outstanding == Without(old(outstanding), r)
      ensures Ascending(outstanding) && r !in outstanding
      ensures Below(old(outstanding), next) ==> Below(outstanding, next)
    {
      completed := completed + {r};
      WithoutAscending(outstanding, r);
      if Below(outstanding, next) {
        WithoutBelow(outstanding, r, next);
      }
      outstanding := Without(outstanding, r);
    }

    /** Drains the queue and applies it in order. When one throws, it and the
        rest of the batch fail, and the exception goes on to the caller. */
    method MaybeSwapModel(outcome: Request -> Outcome) returns (raised: bool)
      requires Valid()
      modifies this
      ensures Valid() && queue == [] && next == old(next) && closed == old(closed)
      ensures raised == SomeThrows(old(queue), outcome)
      ensures applied == old(applied) + AppliedPrefix(old(queue), outcome)
      ensures forall r :: r in failed <==> r in old(failed) || (r in old(queue) && r !in AppliedPrefix(old(queue), outcome))
      ensures forall r :: r in old(queue) ==> r in completed && r !in outstanding
      ensures forall r :: r !in old(queue) ==> (r in completed <==> r in old(completed)) && (r in outstanding <==> r in old(outstanding))
    {
      hide *;
      ghost var completed0, outstanding0, applied0, failedBefore := completed, outstanding, applied, failed;
      BoardIs();
      var batch := queue;
      queue := [];
      raised := false;
      NothingSettled(batch, completed, outstanding);
      assert batch[..0] == [];
      NothingApplied(applied, batch, outcome);
      NoneThrows(outcome);
      NoneFailed(batch, failed, outcome);
      for i := 0 to |batch|
        invariant queue == [] && next == old(next) && closed == old(closed)
        invariant Ascending(outstanding) && Below(outstanding, next) && Honest(completed, failed, applied)
        invariant Tracked(next, completed, outstanding)
        invariant raised == SomeThrows(batch[..i], outcome)
        invariant Remaining(applied0, applied, raised, batch, i, outcome)
        invariant Settled(batch, i, completed0, outstanding0, completed, outstanding)
        invariant FailedSoFar(batch, i, failedBefore, failed, outcome)
      {
        var r := batch[i];
        ghost var failed0, applied1 := failed, applied;
        if !raised && outcome(r) == Succeeds {
          applied := applied + [r];
        } else {
          failed := failed + {r};
        }
        RemainingStep(applied0, applied1, raised, batch, i, outcome);
        HonestStep(completed, failed0, applied1, failed, applied, r);
        FailedStep(batch, i, failedBefore, failed0, raised, outcome);
        assert batch[..i + 1] == batch[..i] + [r];
        ThrowsSnoc(batch[..i], r, outcome);
        SettledStep(batch, i, completed0, outstanding0, completed, outstanding);
        TrackedStep(next, completed, outstanding, r);
        raised := raised || outcome(r) == Throws;
        ResolveSwap(r);
      }
      assert batch[..|batch|] == batch;
      BatchDone(applied0, applied, raised, batch, outcome);
      BatchFailed(batch, failedBefore, failed, outcome);
      SettledMeans(batch, completed0, outstanding0, completed, outstanding);
      BoardSettles();
    }

    lemma BoardIs()
      requires Valid()
      ensures Ascending(outstanding) && Below(outstanding, next) && Honest(completed, failed, applied)
      ensures Tracked(next, completed, outstanding) && Ascending(queue)
    {
    }

    lemma BoardSettles()
      requires Ascending(outstanding) && Below(outstanding, next) && Honest(completed, failed, applied)
      requires Tracked(next, completed, outstanding) && queue == []
      ensures Valid()
    {
    }

    /** Fails every outstanding or queued request that is not completed yet.
        Without interference nothing is left waiting. */
    method FailPendingSwaps()
      requires Valid()
      modifies this
      ensures Valid() && queue == [] && outstanding == [] && next == old(next) && closed == old(closed)
      ensures applied == old(applied)
      ensures forall r: nat :: r < next ==> r in completed
      ensures forall r :: r in failed <==> r in old(failed) || (r in old(outstanding) && r !in old(completed))
    {
      var pending := outstanding + queue;
      outstanding := [];
      queue := [];
      for i := 0 to |pending|
        invariant next == old(next) && closed == old(closed) && applied == old(applied) && queue == [] && outstanding == []
        invariant Honest(completed, failed, applied)
        invariant forall r :: r in completed <==> r in old(completed) || r in pending[..i]
        invariant forall r :: r in failed <==> r in old(failed) || (r in pending[..i] && r !in old(completed))
      {
        var r := pending[i];
        assert pending[..i + 1] == pending[..i] + [r];
        if r !in completed {
          failed := failed + {r};
          completed := completed + {r};
        }
      }
      assert pending[..|pending|] == pending;
    }
  }

  lemma ThrowsSnoc(batch: seq<Request>, r: Request, outcome: Request -> Outcome)
    ensures SomeThrows(batch + [r], outcome) == (SomeThrows(batch, outcome) || outcome(r) == Throws)
  {
    var more := batch + [r];
    if SomeThrows(batch, outcome) {
      var i :| 0 <= i < |batch| && outcome(batch[i]) == Throws;
      assert more[i] == batch[i];
    }
    if outcome(r) == Throws {
      assert more[|batch|] == r;
    }
  }

  // ---------- the same batch in the machine ----------

  /** The worker's own steps through a batch. */
  function BatchEvents(batch: seq<Request>, outcome: Request -> Outcome, raised: bool): seq<Event> {
    if batch == [] then []
    else
      var o := outcome(batch[0]);
      var attempt := if raised then FailRest else if o == Succeeds then TrySucceeds else if o == Fails then TryFails else TryThrows;
      [attempt, Release, Forget] + BatchEvents(batch[1..], outcome, raised || o == Throws)
  }

  function WithoutAll(s: seq<Request>, batch: seq<Request>): seq<Request>
    decreases |batch|
  {
    if batch == [] then s else WithoutAll(Without(s, batch[0]), batch[1..])
  }

  /** One request of a batch: tried, or failed behind one that threw; completed;
      forgotten. */
  lemma HeadIs(s: State, batch: seq<Request>, raised: bool, o: Outcome)
    requires s.worker == Busy(batch, Trying, raised) && batch != []
    ensures var r := batch[0];
      var attempt := if raised then FailRest else if o == Succeeds then TrySucceeds else if o == Fails then TryFails else TryThrows;
      var now := raised || o == Throws;
      Apply(Apply(Apply(s, attempt), Release), Forget)
        == s.(applied := if !raised && o == Succeeds then s.applied + [r] else s.applied,
              failed := if !raised && o == Succeeds then s.failed else s.failed + {r},
              completed := s.completed + {r}, outstanding := Without(s.outstanding, r),
              worker := if |batch| > 1 then Busy(batch[1..], Trying, now) else if now then Leaving else InChunk)
  {
    hide Apply, WorkerStep, Without;
    var attempt := if raised then FailRest else if o == Succeeds then TrySucceeds else if o == Fails then TryFails else TryThrows;
    TriedIs(s, batch, raised, o);
    var tried := Apply(s, attempt);
    ResolvedIs(tried, batch, raised || o == Throws);
  }

  lemma WorkerOnly(s: State, e: Event)
    requires e.TrySucceeds? || e.TryFails? || e.TryThrows? || e.FailRest? || e.Release? || e.Forget?
    ensures Apply(s, e) == WorkerStep(s, e)
  {
    hide WorkerStep;
  }

  lemma TriedIs(s: State, batch: seq<Request>, raised: bool, o: Outcome)
    requires s.worker == Busy(batch, Trying, raised) && batch != []
    ensures var attempt := if raised then FailRest else if o == Succeeds then TrySucceeds else if o == Fails then TryFails else TryThrows;
      Apply(s, attempt) ==
        s.(applied := if !raised && o == Succeeds then s.applied + [batch[0]] else s.applied,
           failed := if !raised && o == Succeeds then s.failed else s.failed + {batch[0]},
           worker := Busy(batch, Marked, raised || o == Throws))
  {
    WorkerOnly(s, if raised then FailRest else if o == Succeeds then TrySucceeds else if o == Fails then TryFails else TryThrows);
    hide Apply;
  }

  lemma ResolvedIs(s: State, batch: seq<Request>, now: bool)
    requires s.worker == Busy(batch, Marked, now) && batch != []
    ensures Apply(Apply(s, Release), Forget) ==
      s.(completed := s.completed + {batch[0]}, outstanding := Without(s.outstanding, batch[0]),
         worker := if |batch| > 1 then Busy(batch[1..], Trying, now) else if now then Leaving else InChunk)
  {
    WorkerOnly(s, Release);
    WorkerOnly(Apply(s, Release), Forget);
    hide Apply, Without;
  }

  /** The requests of a batch that fail, behind one that threw or not. */
  function FailedOf(batch: seq<Request>, outcome: Request -> Outcome, raised: bool): set<Request> {
    if batch == [] then {}
    else
      (if !raised && outcome(batch[0]) == Succeeds then {} else {batch[0]})
      + FailedOf(batch[1..], outcome, raised || outcome(batch[0]) == Throws)
  }

  lemma {:induction false} FailedOfIs(batch: seq<Request>, outcome: Request -> Outcome, raised: bool, r: Request)
    requires Ascending(batch)
    ensures r in FailedOf(batch, outcome, raised) <==> r in batch && (raised || r !in AppliedPrefix(batch, outcome))
  {
    if batch != [] {
      AscendingTail(batch);
      FailedOfIs(batch[1..], outcome, raised || outcome(batch[0]) == Throws, r);
      PrefixAscending(batch[1..], outcome);
    }
  }

  lemma SplitBatch(batch: seq<Request>, raised: bool, outcome: Request -> Outcome)
    requires batch != []
    ensures var o, rest := outcome(batch[0]), batch[1..]; var now := raised || o == Throws;
      && (if raised then [] else AppliedPrefix(batch, outcome))
           == (if !raised && o == Succeeds then [batch[0]] else []) + (if now then [] else AppliedPrefix(rest, outcome))
      && (raised || SomeThrows(batch, outcome) <==> now || SomeThrows(rest, outcome))
      && batch == [batch[0]] + rest
  {
    if outcome(batch[0]) != Throws {
      assert batch == [batch[0]] + batch[1..];
      ThrowsCons(batch[0], batch[1..], outcome);
    }
  }

  /** What a batch leaves behind, from its i-th request on. */
  function BatchDoneFrom(s: State, batch: seq<Request>, raised: bool, outcome: Request -> Outcome): State {
    s.(applied := s.applied + (if raised then [] else AppliedPrefix(batch, outcome)),
       failed := s.failed + FailedOf(batch, outcome, raised),
       completed := s.completed + (set r | r in batch),
       outstanding := WithoutAll(s.outstanding, batch),
       worker := if raised || SomeThrows(batch, outcome) then Leaving else InChunk)
  }

  lemma DoneStep(s: State, batch: seq<Request>, raised: bool, outcome: Request -> Outcome, u: State)
    requires batch != []
    requires var o, r := outcome(batch[0]), batch[0];
      u == s.(applied := if !raised && o == Succeeds then s.applied + [r] else s.applied,
              failed := if !raised && o == Succeeds then s.failed else s.failed + {r},
              completed := s.completed + {r}, outstanding := Without(s.outstanding, r), worker := u.worker)
    ensures BatchDoneFrom(s, batch, raised, outcome) == BatchDoneFrom(u, batch[1..], raised || outcome(batch[0]) == Throws, outcome)
  {
    hide AppliedPrefix, SomeThrows, Without, FailedOf, WithoutAll;
    AppliedOn(s.applied, batch, raised, outcome);
    FailedOn(s.failed, batch, raised, outcome);
    CompletedOn(s.completed, batch);
    WithoutOn(s.outstanding, batch);
    SplitBatch(batch, raised, outcome);
  }

  lemma AppliedOn(applied: seq<Request>, batch: seq<Request>, raised: bool, outcome: Request -> Outcome)
    requires batch != []
    ensures var o := outcome(batch[0]);
      applied + (if raised then [] else AppliedPrefix(batch, outcome)) ==
        (if !raised && o == Succeeds then applied + [batch[0]] else applied)
        + (if raised || o == Throws then [] else AppliedPrefix(batch[1..], outcome))
  {
    SplitBatch(batch, raised, outcome);
    hide AppliedPrefix, SomeThrows;
  }

  lemma FailedOn(failed: set<Request>, batch: seq<Request>, raised: bool, outcome: Request -> Outcome)
    requires batch != []
    ensures var o := outcome(batch[0]);
      failed + FailedOf(batch, outcome, raised) ==
        (if !raised && o == Succeeds then failed else failed + {batch[0]}) + FailedOf(batch[1..], outcome, raised || o == Throws)
  {
  }

  lemma CompletedOn(completed: set<Request>, batch: seq<Request>)
    requires batch != []
    ensures completed + (set r | r in batch) == completed + {batch[0]} + set r | r in batch[1..]
  {
    assert batch == [batch[0]] + batch[1..];
  }

  lemma WithoutOn(outstanding: seq<Request>, batch: seq<Request>)
    requires batch != []
    ensures WithoutAll(outstanding, batch) == WithoutAll(Without(outstanding, batch[0]), batch[1..])
  {
  }

  /** With no step of anyone else between, the worker's steps through a batch come
      to what the call on the object does: the same requests applied and failed,
      the whole batch completed and forgotten; and the loop goes on with the
      chunk, or ends if one threw. */
  lemma {:induction false} BatchRun(s: State, batch: seq<Request>, raised: bool, outcome: Request -> Outcome)
    requires s.worker == Busy(batch, Trying, raised) && batch != []
    ensures Steps(s, BatchEvents(batch, outcome, raised)) == BatchDoneFrom(s, batch, raised, outcome)
    decreases |batch|
  {
    var o := outcome(batch[0]);
    var attempt := if raised then FailRest else if o == Succeeds then TrySucceeds else if o == Fails then TryFails else TryThrows;
    var now := raised || o == Throws;
    HeadIs(s, batch, raised, o);
    var u := Apply(Apply(Apply(s, attempt), Release), Forget);
    ThreeThen(s, attempt, Release, Forget, BatchEvents(batch[1..], outcome, now));
    DoneStep(s, batch, raised, outcome, u);
    hide Apply, Steps, Without, BatchDoneFrom;
    if |batch| > 1 {
      BatchRun(u, batch[1..], now, outcome);
    } else {
      NoBatch(u, batch[1..], now, outcome);
    }
  }

  lemma NoBatch(u: State, rest: seq<Request>, now: bool, outcome: Request -> Outcome)
    requires rest == [] && u.worker == if now then Leaving else InChunk
    ensures Steps(u, BatchEvents(rest, outcome, now)) == u == BatchDoneFrom(u, rest, now, outcome)
  {
  }
}
