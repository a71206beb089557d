// The inference subprocess protocol. A parent and a child share two pipes (one
// FIFO each way) and two buffers; the child may crash at any step, swap
// replies may arrive after the parent stopped waiting for them, and a failed
// call restarts the child with fresh pipes and buffers and tries once more.
// Each event is one step of one side; a run is any sequence of events.
module InferenceProtocol {
  import opened Samples

  const INPUT_FLOATS: nat := 16384
  const OUTPUT_FLOATS: nat := 32768

  datatype Knobs = Knobs(f0UpKey: int, sid: int, threshold: real)

  datatype Command = Infer(len: nat, knobs: Knobs) | Swap(path: string)

  datatype Response = Ready | Done(len: nat) | SwapDone | Error

  /** What the child is doing. Gone: it has left its loop or died, its pipe
      ends are closed. */
  datatype Child =
    | Gone
    | Loading
    | Listening
    | Fetching(len: nat, knobs: Knobs)
    | Computing(input: seq<real>, knobs: Knobs)
    | Replying(len: nat)
    | Swapping(path: string)

  /** One generation of child, pipes and buffers. A restart replaces all of it,
      so generations share nothing. */
  datatype Generation = Generation(
    commands: seq<Command>, responses: seq<Response>, child: Child, voice: string,
    input: seq<real>, output: seq<real>)

  /** Where the parent's single engine thread is. */
  datatype Parent =
    | Idle
    | Spawning(pending: Option<seq<real>>)
    | Checking(audio: seq<real>, retry: bool)
    | Filled(audio: seq<real>, retry: bool)
    | Awaiting(audio: seq<real>, knobs: Knobs, retry: bool)
    | Reading(audio: seq<real>, knobs: Knobs, len: nat)
    | AwaitingSwap

  datatype Outcome = Returned(audio: seq<real>, knobs: Knobs, block: seq<real>) | Raised(audio: seq<real>)

  /** calls: the block of every infer call so far; log: how each ended. */
  datatype State = State(parent: Parent, gen: Option<Generation>, calls: seq<seq<real>>, log: seq<Outcome>)

  /** The child engine's inference as a function of its voice and one call's input. */
  type Model = (string, seq<real>, Knobs) -> seq<real>

  datatype Event =
    // parent
    | Start
    | Stop
    | CallInfer(audio: seq<real>)
    | Fill(seemsAlive: bool)
    | Send(knobs: Knobs)
    | SendBreaks
    | Receive
    | ReceiveBreaks
    | CopyOut
    | CallSwap(path: string)
    | SwapTimesOut
    | SpawnFails
    // child
    | Load(voice: string)
    | LoadFails
    | TakeCommand
    | Fetch
    | Compute
    | ComputeFails
    | Reply
    | SwapSucceeds
    | SwapFails(loaded: bool)
    | Crash(scribble: seq<real>)
    | QuitWithError

  function Zeros(n: nat): (r: seq<real>)
    ensures |r| == n && forall i :: 0 <= i < n ==> r[i] == 0.0
  {
    seq(n, i => 0.0)
  }

  function Fresh(): Generation {
    Generation([], [], Loading, "", Zeros(INPUT_FLOATS), Zeros(OUTPUT_FLOATS))
  }

  /** Copies a block to the start of a buffer. */
  function Overlay(block: seq<real>, buffer: seq<real>): (r: seq<real>)
    requires |block| <= |buffer|
    ensures |r| == |buffer| && r[..|block|] == block
  {
    block + buffer[|block|..]
  }

  // ---------- steps ----------

  /** A failed call: the first failure restarts and retries, the second is raised. */
  function InferFails(s: State, audio: seq<real>, retry: bool): State {
    if retry then s.(parent := Idle, log := s.log + [Raised(audio)])
    else s.(parent := Spawning(Some(audio)), gen := Some(Fresh()))
  }

  /** A failed spawn drops the handles. */
  function SpawnGivesUp(s: State, pending: Option<seq<real>>): State {
    s.(parent := Idle, gen := None, log := if pending.Some? then s.log + [Raised(pending.value)] else s.log)
  }

  function ReceiveStep(s: State, g: Generation): State
    requires g.responses != []
  {
    var message := g.responses[0];
    var t := s.(gen := Some(g.(responses := g.responses[1..])));
    match s.parent
    case Spawning(pending) =>
      if message != Ready then SpawnGivesUp(s, pending)
      else if pending.Some? then t.(parent := Checking(pending.value, true))
      else t.(parent := Idle)
    case Awaiting(audio, knobs, retry) =>
      if message.Done? then t.(parent := Reading(audio, knobs, message.len))
      else InferFails(t, audio, retry)
    case AwaitingSwap =>
      if message.SwapDone? || message.Error? then t.(parent := Idle) else t
    case _ => s
  }

  function ParentStep(s: State, e: Event): State {
    match e
    case Start =>
      if s.parent.Idle? && (s.gen.None? || s.gen.value.child.Gone?)
      then s.(parent := Spawning(None), gen := Some(Fresh())) else s
    case Stop =>
      if s.parent.Idle? then s.(gen := None) else s
    case CallInfer(audio) =>
      if s.parent.Idle? then s.(parent := Checking(audio, false), calls := s.calls + [audio]) else s
    case Fill(seemsAlive) =>
      if !s.parent.Checking? then s
      else
        var Checking(audio, retry) := s.parent;
        if s.gen.None? then InferFails(s, audio, retry)
        else
          var g := s.gen.value;
          if !seemsAlive then if g.child.Gone? then InferFails(s, audio, retry) else s
          else if |audio| > |g.input| then InferFails(s, audio, retry)
          else s.(parent := Filled(audio, retry), gen := Some(g.(input := Overlay(audio, g.input))))
    case Send(knobs) =>
      if s.parent.Filled? && s.gen.Some? then
        var Filled(audio, retry) := s.parent;
        var g := s.gen.value;
        s.(parent := Awaiting(audio, knobs, retry), gen := Some(g.(commands := g.commands + [Infer(|audio|, knobs)])))
      else s
    case SendBreaks =>
      if s.parent.Filled? && s.gen.Some? && s.gen.value.child.Gone?
      then InferFails(s, s.parent.audio, s.parent.retry) else s
    case Receive =>
      if s.gen.Some? && s.gen.value.responses != [] then ReceiveStep(s, s.gen.value) else s
    case ReceiveBreaks =>
      if s.gen.Some? && s.gen.value.child.Gone? && s.gen.value.responses == [] then
        if s.parent.Awaiting? then InferFails(s, s.parent.audio, s.parent.retry)
        else if s.parent.AwaitingSwap? then s.(parent := Idle)
        else s
      else s
    case CopyOut =>
      if s.parent.Reading? && s.gen.Some? && s.parent.len <= |s.gen.value.output| then
        var Reading(audio, knobs, len) := s.parent;
        s.(parent := Idle, log := s.log + [Returned(audio, knobs, s.gen.value.output[..len])])
      else s
    case CallSwap(path) =>
      if s.parent.Idle? && s.gen.Some? then
        var g := s.gen.value;
        s.(parent := AwaitingSwap, gen := Some(g.(commands := g.commands + [Swap(path)])))
      else s
    case SwapTimesOut =>
      if s.parent.AwaitingSwap? then s.(parent := Idle) else s
    case SpawnFails =>
      if s.parent.Spawning? then SpawnGivesUp(s, s.parent.pending) else s
    case _ => s
  }

  function Say(g: Generation, message: Response, next: Child): Generation {
    g.(responses := g.responses + [message], child := next)
  }

  function ChildStep(model: Model, g: Generation, e: Event): Generation {
    match e
    case Load(voice) =>
      if g.child.Loading? then Say(g, Ready, Listening).(voice := voice) else g
    case LoadFails =>
      if g.child.Loading? then Say(g, Error, Gone) else g
    case TakeCommand =>
      if g.child.Listening? && g.commands != [] then
        var t := g.(commands := g.commands[1..]);
        match g.commands[0]
        case Infer(len, knobs) => t.(child := Fetching(len, knobs))
        case Swap(path) => t.(child := Swapping(path))
      else g
    case Fetch =>
      if g.child.Fetching? && g.child.len <= |g.input|
      then g.(child := Computing(g.input[..g.child.len], g.child.knobs)) else g
    case Compute =>
      if g.child.Computing? then
        var block := model(g.voice, g.child.input, g.child.knobs);
        if |block| > |g.output| then Say(g, Error, Listening)
        else g.(output := Overlay(block, g.output), child := Replying(|block|))
      else g
    case ComputeFails =>
      if g.child.Fetching? || g.child.Computing? then Say(g, Error, Listening) else g
    case Reply =>
      if g.child.Replying? then Say(g, Done(g.child.len), Listening) else g
    case SwapSucceeds =>
      if g.child.Swapping? then Say(g, SwapDone, Listening).(voice := g.child.path) else g
    case SwapFails(loaded) =>
      if g.child.Swapping?
      then Say(g, Error, Listening).(voice := if loaded then g.child.path else g.voice) else g
    case Crash(scribble) =>
      if g.child.Computing? && |scribble| == |g.output|
      then g.(child := Gone, output := scribble) else g.(child := Gone)
    case QuitWithError =>
      if g.child.Listening? then Say(g, Error, Gone) else g
    case _ => g
  }

  predicate IsChildEvent(e: Event) {
    e.Load? || e.LoadFails? || e.TakeCommand? || e.Fetch? || e.Compute? || e.ComputeFails? || e.Reply?
    || e.SwapSucceeds? || e.SwapFails? || e.Crash? || e.QuitWithError?
  }

  function Apply(model: Model, s: State, e: Event): State {
    if IsChildEvent(e)
    then if s.gen.Some? then s.(gen := Some(ChildStep(model, s.gen.value, e))) else s
    else ParentStep(s, e)
  }

  const INITIAL := State(Idle, None, [], [])

  function Run(model: Model, events: seq<Event>): State {
    if events == [] then INITIAL else Apply(model, Run(model, events[..|events| - 1]), events[|events| - 1])
  }

  // ---------- invariant ----------

  predicate InferPhase(c: Child) {
    c.Fetching? || c.Computing? || c.Replying?
  }

  predicate NoInfer(commands: seq<Command>) {
    forall i :: 0 <= i < |commands| ==> !commands[i].Infer?
  }

  predicate NoDone(responses: seq<Response>) {
    forall i :: 0 <= i < |responses| ==> !responses[i].Done?
  }

  /** No inference is outstanding: none queued, none running, none answered. */
  predicate Quiet(g: Generation) {
    && NoDone(g.responses) && !InferPhase(g.child)
    && (g.child.Gone? || NoInfer(g.commands))
  }

  predicate Sized(g: Generation) {
    |g.input| == INPUT_FLOATS && |g.output| == OUTPUT_FLOATS
  }

  /** The first len floats of the output buffer are some voice's result. */
  ghost predicate Holds(model: Model, output: seq<real>, len: nat, audio: seq<real>, knobs: Knobs) {
    len <= |output| && exists voice: string :: output[..len] == model(voice, audio, knobs)
  }

  predicate InputIs(g: Generation, audio: seq<real>) {
    |audio| <= |g.input| && g.input[..|audio|] == audio
  }

  /** One inference is outstanding, and it is this call's. */
  ghost predicate Outstanding(model: Model, g: Generation, audio: seq<real>, knobs: Knobs) {
    match g.child
    case Fetching(len, k) => g.commands == [] && NoDone(g.responses) && len == |audio| && k == knobs && InputIs(g, audio)
    case Computing(input, k) => g.commands == [] && NoDone(g.responses) && input == audio && k == knobs
    case Replying(len) => g.commands == [] && NoDone(g.responses) && Holds(model, g.output, len, audio, knobs)
    case _ => Queued(g, audio, knobs) || Answered(model, g, audio, knobs) || Dropped(g)
  }

  predicate Queued(g: Generation, audio: seq<real>, knobs: Knobs) {
    && NoDone(g.responses) && InputIs(g, audio)
    && g.commands != [] && g.commands[|g.commands| - 1] == Infer(|audio|, knobs)
    && NoInfer(g.commands[..|g.commands| - 1])
  }

  predicate OnlyDone(responses: seq<Response>, p: nat) {
    && p < |responses| && responses[p].Done?
    && forall i :: 0 <= i < |responses| && i != p ==> !responses[i].Done?
  }

  ghost predicate Answered(model: Model, g: Generation, audio: seq<real>, knobs: Knobs) {
    && g.commands == []
    && exists p: nat :: OnlyDone(g.responses, p) && Holds(model, g.output, g.responses[p].len, audio, knobs)
  }

  /** It failed or its child is gone: an error or nothing will come back. */
  predicate Dropped(g: Generation) {
    NoDone(g.responses) && (g.child.Gone? || g.commands == [])
  }

  /** On the second attempt the generation is new, so whatever comes back first
      answers this call and leaves nothing outstanding. */
  predicate Private(g: Generation) {
    && !g.child.Loading? && !g.child.Swapping? && |g.commands| <= 1
    && (g.responses != [] ==>
          NoDone(g.responses[1..]) && !InferPhase(g.child) && (g.child.Gone? || NoInfer(g.commands)))
  }

  /** A generation no command has been sent to. */
  predicate Untouched(g: Generation) {
    g.commands == [] && NoDone(g.responses) && (g.child.Gone? || (g.child.Listening? && g.responses == []))
  }

  predicate Starting(g: Generation) {
    && g.commands == [] && NoDone(g.responses)
    && (g.child.Gone? || (g.child.Loading? && g.responses == []) || (g.child.Listening? && g.responses == [Ready]))
  }

  ghost predicate GenerationInv(model: Model, p: Parent, g: Generation) {
    && Sized(g)
    && match p
       case Idle => Quiet(g)
       case AwaitingSwap => Quiet(g)
       case Spawning(_) => Starting(g)
       case Checking(_, retry) => Quiet(g) && (retry ==> Untouched(g))
       case Filled(audio, retry) => Quiet(g) && InputIs(g, audio) && (retry ==> Untouched(g))
       case Awaiting(audio, knobs, retry) => Outstanding(model, g, audio, knobs) && (retry ==> Private(g))
       case Reading(audio, knobs, len) => Quiet(g) && Holds(model, g.output, len, audio, knobs)
  }

  /** The block the parent is working on, if any. */
  function Current(p: Parent): Option<seq<real>> {
    match p
    case Spawning(pending) => pending
    case Checking(audio, _) => Some(audio)
    case Filled(audio, _) => Some(audio)
    case Awaiting(audio, _, _) => Some(audio)
    case Reading(audio, _, _) => Some(audio)
    case _ => None
  }

  /** Every call so far has ended exactly once, in order, but the current one. */
  predicate Accounted(p: Parent, calls: seq<seq<real>>, log: seq<Outcome>) {
    && |calls| == |log| + (if Current(p).Some? then 1 else 0)
    && (forall i :: 0 <= i < |log| ==> log[i].audio == calls[i])
    && (Current(p).Some? ==> Current(p).value == calls[|calls| - 1])
  }

  ghost predicate Correct(model: Model, o: Outcome) {
    o.Returned? ==> exists voice: string :: o.block == model(voice, o.audio, o.knobs)
  }

  ghost predicate AllCorrect(model: Model, log: seq<Outcome>) {
    forall i :: 0 <= i < |log| ==> Correct(model, log[i])
  }

  ghost predicate Inv(model: Model, s: State) {
    && (s.gen.Some? ==> GenerationInv(model, s.parent, s.gen.value))
    && (s.gen.None? ==> s.parent.Idle? || (s.parent.Checking? && !s.parent.retry))
    && Accounted(s.parent, s.calls, s.log) && AllCorrect(model, s.log)
  }

  // ---------- the child's steps ----------

  lemma ChildKeepsQuiet(model: Model, g: Generation, e: Event)
    requires Quiet(g)
    ensures Quiet(ChildStep(model, g, e))
    ensures ChildStep(model, g, e).output == g.output && ChildStep(model, g, e).input == g.input
  {
  }

  lemma ChildKeepsUntouched(model: Model, g: Generation, e: Event)
    requires Untouched(g)
    ensures Untouched(ChildStep(model, g, e))
  {
  }

  lemma ChildKeepsStarting(model: Model, g: Generation, e: Event)
    requires Starting(g)
    ensures Starting(ChildStep(model, g, e))
  {
  }

  lemma ChildKeepsSizes(model: Model, g: Generation, e: Event)
    requires Sized(g)
    ensures Sized(ChildStep(model, g, e))
  {
  }

  lemma ChildKeepsPrivate(model: Model, g: Generation, audio: seq<real>, knobs: Knobs, e: Event)
    requires Outstanding(model, g, audio, knobs) && Private(g)
    ensures Private(ChildStep(model, g, e))
  {
    hide Holds;
  }

  lemma ChildKeepsOutstanding(model: Model, g: Generation, audio: seq<real>, knobs: Knobs, e: Event)
    requires Outstanding(model, g, audio, knobs)
    ensures Outstanding(model, ChildStep(model, g, e), audio, knobs)
  {
    hide Holds;
    if g.child.Computing? && e.Compute? && |model(g.voice, audio, knobs)| <= |g.output| {
      ComputeHolds(model, g, audio, knobs);
    } else if g.child.Replying? && e.Reply? {
      DoneAnswers(g.responses, g.child.len);
    } else if g.child.Listening? && e.QuitWithError? {
      ErrorKeepsAnswer(g.responses);
    }
  }

  lemma DoneAnswers(responses: seq<Response>, len: nat)
    requires NoDone(responses)
    ensures OnlyDone(responses + [Done(len)], |responses|)
  {
  }

  lemma ErrorKeepsAnswer(responses: seq<Response>)
    ensures forall p: nat :: OnlyDone(responses, p) ==> OnlyDone(responses + [Error], p) && (responses + [Error])[p] == responses[p]
  {
  }

  lemma ComputeHolds(model: Model, g: Generation, audio: seq<real>, knobs: Knobs)
    requires |model(g.voice, audio, knobs)| <= |g.output|
    ensures Holds(model, Overlay(model(g.voice, audio, knobs), g.output), |model(g.voice, audio, knobs)|, audio, knobs)
  {
  }

  lemma ChildKeepsInv(model: Model, s: State, e: Event)
    requires Inv(model, s) && IsChildEvent(e)
    ensures Inv(model, Apply(model, s, e))
  {
    if s.gen.Some? {
      var g := s.gen.value;
      ChildKeepsGeneration(model, s.parent, g, e);
      hide ChildStep, GenerationInv;
    }
  }

  lemma ChildKeepsGeneration(model: Model, p: Parent, g: Generation, e: Event)
    requires GenerationInv(model, p, g)
    ensures GenerationInv(model, p, ChildStep(model, g, e))
  {
    hide ChildStep, Quiet, Sized, Untouched, Starting, Outstanding, Private, Holds;
    ChildKeepsSizes(model, g, e);
    match p
    case Idle => ChildKeepsQuiet(model, g, e);
    case AwaitingSwap => ChildKeepsQuiet(model, g, e);
    case Spawning(_) => ChildKeepsStarting(model, g, e);
    case Checking(_, retry) =>
      ChildKeepsQuiet(model, g, e);
      if retry { ChildKeepsUntouched(model, g, e); }
    case Filled(audio, retry) =>
      ChildKeepsQuiet(model, g, e);
      if retry { ChildKeepsUntouched(model, g, e); }
    case Awaiting(audio, knobs, retry) =>
      ChildKeepsOutstanding(model, g, audio, knobs, e);
      if retry { ChildKeepsPrivate(model, g, audio, knobs, e); }
    case Reading(audio, knobs, len) => ChildKeepsQuiet(model, g, e);
  }

  // ---------- the parent's steps ----------

  lemma FreshStarts(model: Model, pending: Option<seq<real>>)
    ensures GenerationInv(model, Spawning(pending), Fresh())
  {
  }

  lemma InferFailsKeeps(model: Model, s: State, audio: seq<real>, retry: bool)
    requires Accounted(s.parent, s.calls, s.log) && AllCorrect(model, s.log) && Current(s.parent) == Some(audio)
    requires retry ==> s.gen.Some? && Sized(s.gen.value) && Quiet(s.gen.value)
    ensures Inv(model, InferFails(s, audio, retry))
  {
    FreshStarts(model, Some(audio));
    hide Quiet, Fresh, Starting;
  }

  lemma SpawnGivesUpKeeps(model: Model, s: State)
    requires Inv(model, s) && s.parent.Spawning?
    ensures Inv(model, SpawnGivesUp(s, s.parent.pending))
  {
    hide GenerationInv;
  }

  /** What reading one response leaves behind while a call waits. */
  lemma PopWhileAwaiting(model: Model, g: Generation, audio: seq<real>, knobs: Knobs)
    requires Outstanding(model, g, audio, knobs) && g.responses != []
    ensures var t := g.(responses := g.responses[1..]);
      && (g.responses[0].Done? ==> Quiet(t) && Holds(model, t.output, g.responses[0].len, audio, knobs))
      && (Private(g) && !g.responses[0].Done? ==> Quiet(t))
  {
    hide Holds;
  }

  lemma ReceiveKeeps(model: Model, s: State)
    requires Inv(model, s) && s.gen.Some? && s.gen.value.responses != []
    ensures Inv(model, ReceiveStep(s, s.gen.value))
  {
    var g := s.gen.value;
    var t := s.(gen := Some(g.(responses := g.responses[1..])));
    match s.parent
    case Spawning(pending) =>
      if g.responses[0] != Ready {
        SpawnGivesUpKeeps(model, s);
      } else {
        hide Holds, Outstanding;
      }
    case Awaiting(audio, knobs, retry) =>
      hide Outstanding, Holds, Quiet;
      PopWhileAwaiting(model, g, audio, knobs);
      if !g.responses[0].Done? {
        InferFailsKeeps(model, t, audio, retry);
      }
    case _ =>
      hide Outstanding, Holds;
  }

  lemma FillKeeps(model: Model, s: State, seemsAlive: bool)
    requires Inv(model, s)
    ensures Inv(model, ParentStep(s, Fill(seemsAlive)))
  {
    hide Outstanding, Holds, AllCorrect;
    if s.parent.Checking? {
      InferFailsAlways(model, s);
    }
  }

  lemma InferFailsAlways(model: Model, s: State)
    requires Inv(model, s) && (s.parent.Checking? || s.parent.Filled?)
    ensures Inv(model, InferFails(s, s.parent.audio, s.parent.retry))
  {
    hide Outstanding, Holds, Quiet;
    InferFailsKeeps(model, s, s.parent.audio, s.parent.retry);
  }

  lemma SendKeeps(model: Model, s: State, knobs: Knobs)
    requires Inv(model, s)
    ensures Inv(model, ParentStep(s, Send(knobs)))
  {
    hide Holds;
  }

  lemma ReceiveBreaksKeeps(model: Model, s: State)
    requires Inv(model, s)
    ensures Inv(model, ParentStep(s, ReceiveBreaks))
  {
    if s.gen.Some? && s.gen.value.child.Gone? && s.gen.value.responses == [] && s.parent.Awaiting? {
      InferFailsKeeps(model, s, s.parent.audio, s.parent.retry);
    }
    hide Holds, Outstanding;
  }

  lemma CopyOutKeeps(model: Model, s: State)
    requires Inv(model, s)
    ensures Inv(model, ParentStep(s, CopyOut))
  {
    hide Quiet, Outstanding;
  }

  lemma ParentKeepsInv(model: Model, s: State, e: Event)
    requires Inv(model, s) && !IsChildEvent(e)
    ensures Inv(model, ParentStep(s, e))
  {
    match e
    case Fill(seemsAlive) => FillKeeps(model, s, seemsAlive);
    case Send(knobs) => SendKeeps(model, s, knobs);
    case SendBreaks =>
      if s.parent.Filled? { InferFailsAlways(model, s); }
    case Receive =>
      if s.gen.Some? && s.gen.value.responses != [] { ReceiveKeeps(model, s); }
    case ReceiveBreaks => ReceiveBreaksKeeps(model, s);
    case CopyOut => CopyOutKeeps(model, s);
    case SpawnFails =>
      if s.parent.Spawning? { SpawnGivesUpKeeps(model, s); }
    case _ =>
      FreshStarts(model, None);
      hide Holds, Outstanding, Fresh;
  }

  /** A run is its events, one after the other. */
  lemma RunIs(model: Model, events: seq<Event>, e: Event)
    ensures Run(model, []) == State(Idle, None, [], [])
    ensures Run(model, events + [e]) == Apply(model, Run(model, events), e)
  {
    assert (events + [e])[..|events|] == events;
    hide Apply;
  }

  // ---------- main theorems ----------

  lemma {:induction false} RunKeepsInv(model: Model, events: seq<Event>)
    ensures Inv(model, Run(model, events))
  {
    if events != [] {
      hide Inv, ParentStep, ChildStep;
      var n := |events| - 1;
      RunKeepsInv(model, events[..n]);
      if IsChildEvent(events[n]) {
        ChildKeepsInv(model, Run(model, events[..n]), events[n]);
      } else {
        ParentKeepsInv(model, Run(model, events[..n]), events[n]);
      }
    }
  }

  /** Every block a call returns was computed by the child from exactly that
      call's samples and knobs, by some voice. */
  lemma BlocksAreCorrect(model: Model, events: seq<Event>, i: nat)
    requires i < |Run(model, events).log|
    ensures var s := Run(model, events);
      && i < |s.calls| && s.log[i].audio == s.calls[i]
      && (s.log[i].Returned? ==>
            exists voice: string :: s.log[i].block == model(voice, s.calls[i], s.log[i].knobs))
  {
    RunKeepsInv(model, events);
    assert Correct(model, Run(model, events).log[i]);
    hide Run;
  }

  /** Between calls no inference is outstanding, and every call has ended once. */
  lemma NothingOutstandingBetweenCalls(model: Model, events: seq<Event>)
    requires Run(model, events).parent.Idle?
    ensures var s := Run(model, events);
      && |s.log| == |s.calls|
      && (s.gen.Some? ==> Quiet(s.gen.value))
  {
    RunKeepsInv(model, events);
    hide Run, Quiet;
  }

  /** One call with nothing going wrong. */
  function WholeCall(model: Model, s: State, audio: seq<real>, knobs: Knobs): State {
    Answer(model, Apply(model, Apply(model, s, CallInfer(audio)), Fill(true)), knobs)
  }

  function Ask(model: Model, s: State, knobs: Knobs): State {
    Apply(model, Apply(model, s, Send(knobs)), TakeCommand)
  }

  function Work(model: Model, s: State): State {
    Apply(model, Apply(model, s, Fetch), Compute)
  }

  function Collect(model: Model, s: State): State {
    Apply(model, Apply(model, Apply(model, s, Reply), Receive), CopyOut)
  }

  function Answer(model: Model, s: State, knobs: Knobs): State {
    Collect(model, Work(model, Ask(model, s, knobs)))
  }

  lemma AskIs(model: Model, s: State, g: Generation, audio: seq<real>, retry: bool, knobs: Knobs)
    requires s.parent == Filled(audio, retry) && s.gen == Some(g) && g.commands == [] && g.child.Listening?
    ensures Ask(model, s, knobs) ==
      s.(parent := Awaiting(audio, knobs, retry), gen := Some(g.(child := Fetching(|audio|, knobs))))
  {
    assert ([] + [Infer(|audio|, knobs)])[1..] == [];
  }

  lemma WorkIs(model: Model, s: State, g: Generation, audio: seq<real>, knobs: Knobs)
    requires s.gen == Some(g) && g.child == Fetching(|audio|, knobs) && InputIs(g, audio)
    requires |model(g.voice, audio, knobs)| <= |g.output|
    ensures var block := model(g.voice, audio, knobs);
      Work(model, s) == s.(gen := Some(g.(child := Replying(|block|), output := Overlay(block, g.output))))
  {
  }

  lemma CollectIs(model: Model, s: State, g: Generation, audio: seq<real>, retry: bool, knobs: Knobs, len: nat)
    requires s.parent == Awaiting(audio, knobs, retry) && s.gen == Some(g)
    requires g.child == Replying(len) && g.responses == [] && len <= |g.output|
    ensures Collect(model, s) == State(Idle, Some(g.(child := Listening)), s.calls,
                                       s.log + [Returned(audio, knobs, g.output[..len])])
  {
    assert ([] + [Done(len)])[1..] == [];
  }

  lemma AnswerIs(model: Model, s: State, g: Generation, audio: seq<real>, retry: bool, knobs: Knobs)
    requires s.parent == Filled(audio, retry) && s.gen == Some(g) && InputIs(g, audio)
    requires g.commands == [] && g.responses == [] && g.child.Listening?
    requires |model(g.voice, audio, knobs)| <= |g.output|
    ensures var block := model(g.voice, audio, knobs);
      Answer(model, s, knobs) == State(Idle, Some(g.(output := Overlay(block, g.output))), s.calls,
                                       s.log + [Returned(audio, knobs, block)])
  {
    hide Ask, Work, Collect, Overlay;
    var block := model(g.voice, audio, knobs);
    AskIs(model, s, g, audio, retry, knobs);
    var asked := Ask(model, s, knobs);
    WorkIs(model, asked, asked.gen.value, audio, knobs);
    var worked := Work(model, asked);
    CollectIs(model, worked, worked.gen.value, audio, retry, knobs, |block|);
  }

  /** With a listening child and both blocks small enough, a call returns the
      current voice's result. */
  lemma UndisturbedCall(model: Model, s: State, audio: seq<real>, knobs: Knobs)
    requires s.parent.Idle? && s.gen.Some? && Sized(s.gen.value)
    requires Untouched(s.gen.value) && s.gen.value.child.Listening?
    requires |audio| <= INPUT_FLOATS && |model(s.gen.value.voice, audio, knobs)| <= OUTPUT_FLOATS
    ensures var t := WholeCall(model, s, audio, knobs);
      && t.parent.Idle? && t.gen.Some? && Untouched(t.gen.value) && t.gen.value.child.Listening?
      && t.log == s.log + [Returned(audio, knobs, model(s.gen.value.voice, audio, knobs))]
  {
    hide Answer;
    var filled := Apply(model, Apply(model, s, CallInfer(audio)), Fill(true));
    AnswerIs(model, filled, filled.gen.value, audio, false, knobs);
  }

  /** The restart, the new child coming up with `voice`, and the second attempt. */
  function WholeRetry(model: Model, s: State, voice: string, knobs: Knobs): State {
    var loaded := Apply(model, s, Load(voice));
    Answer(model, Apply(model, Apply(model, loaded, Receive), Fill(true)), knobs)
  }

  lemma RetryBegins(model: Model, s: State, audio: seq<real>, voice: string)
    requires s.parent == Spawning(Some(audio)) && s.gen == Some(Fresh()) && |audio| <= INPUT_FLOATS
    ensures var t := Apply(model, Apply(model, Apply(model, s, Load(voice)), Receive), Fill(true));
      t == s.(parent := Filled(audio, true),
              gen := Some(Fresh().(child := Listening, voice := voice, input := Overlay(audio, Fresh().input))))
  {
    assert ([] + [Ready])[1..] == [];
  }

  /** A late reply of an abandoned swap costs the next call a restart, never a
      wrong block: the retry returns the new child's result for this call. */
  lemma LateSwapReplyIsHarmless(model: Model, s: State, audio: seq<real>, first: Knobs, voice: string, second: Knobs)
    requires Inv(model, s) && s.parent.Idle? && s.gen.Some? && s.gen.value.responses != []
    requires |audio| <= INPUT_FLOATS && |model(voice, audio, second)| <= OUTPUT_FLOATS
    ensures var asked := Apply(model, Apply(model, Apply(model, s, CallInfer(audio)), Fill(true)), Send(first));
      var t := WholeRetry(model, Apply(model, asked, Receive), voice, second);
      && t.parent.Idle? && t.gen.Some? && t.gen.value.voice == voice
      && t.log == s.log + [Returned(audio, second, model(voice, audio, second))]
  {
    hide Answer, Outstanding, Accounted, AllCorrect;
    var asked := Apply(model, Apply(model, Apply(model, s, CallInfer(audio)), Fill(true)), Send(first));
    var restarted := Apply(model, asked, Receive);
    assert restarted == State(Spawning(Some(audio)), Some(Fresh()), s.calls + [audio], s.log);
    hide Quiet;
    RetryBegins(model, restarted, audio, voice);
    var ready := Apply(model, Apply(model, Apply(model, restarted, Load(voice)), Receive), Fill(true));
    AnswerIs(model, ready, ready.gen.value, audio, true, second);
  }

  // ---------- failures, the restart and the second attempt ----------

  /** A call at its first attempt, or at its second. */
  predicate Attempting(p: Parent, audio: seq<real>, retry: bool) {
    match p
    case Checking(a, r) => a == audio && r == retry
    case Filled(a, r) => a == audio && r == retry
    case Awaiting(a, _, r) => a == audio && r == retry
    case _ => false
  }

  /** The step at which an attempt fails: there is no child, it is seen dead, or the
      block does not fit; the pipe breaks when the command is sent, or when the
      reply is read; or what is read is no result. */
  predicate AttemptFails(s: State, e: Event) {
    match s.parent
    case Checking(audio, _) =>
      e.Fill? && (s.gen.None? || (!e.seemsAlive && s.gen.value.child.Gone?) || (e.seemsAlive && |audio| > |s.gen.value.input|))
    case Filled(_, _) => e.SendBreaks? && s.gen.Some? && s.gen.value.child.Gone?
    case Awaiting(_, _, _) =>
      && s.gen.Some?
      && ((e.ReceiveBreaks? && s.gen.value.child.Gone? && s.gen.value.responses == [])
          || (e.Receive? && s.gen.value.responses != [] && !s.gen.value.responses[0].Done?))
    case _ => false
  }

  /** Whatever fails it, a first attempt ends in a restart: a new child that is
      loading, empty pipes and blank buffers, the call still pending. */
  lemma FailureRestarts(model: Model, s: State, e: Event, audio: seq<real>)
    requires Attempting(s.parent, audio, false) && AttemptFails(s, e)
    ensures Apply(model, s, e) ==
      State(Spawning(Some(audio)), Some(Generation([], [], Loading, "", Zeros(16384), Zeros(32768))), s.calls, s.log)
  {
  }

  /** A second attempt that fails is raised. */
  lemma SecondFailureRaises(model: Model, s: State, e: Event, audio: seq<real>)
    requires Attempting(s.parent, audio, true) && AttemptFails(s, e)
    ensures var t := Apply(model, s, e); t.parent.Idle? && t.calls == s.calls && t.log == s.log + [Raised(audio)]
  {
  }

  /** Nothing else ends an attempt but the result: no step of any side raises a
      first attempt, restarts a second, or restarts an attempt that has not
      failed. */
  lemma OnlyFailuresRestart(model: Model, s: State, e: Event, audio: seq<real>, retry: bool)
    requires Attempting(s.parent, audio, retry) && !AttemptFails(s, e)
    ensures var t := Apply(model, s, e);
      && t.log == s.log && t.calls == s.calls
      && (Attempting(t.parent, audio, retry) || (s.parent.Awaiting? && t.parent.Reading? && t.parent.audio == audio))
  {
  }

  /** A call is raised only when the restarted child does not come up, or at the
      second attempt. */
  lemma RaisedAfterRestart(model: Model, s: State, e: Event)
    ensures var t := Apply(model, s, e);
      |t.log| > |s.log| && t.log[|t.log| - 1].Raised? ==>
        var audio := t.log[|t.log| - 1].audio;
        s.parent == Spawning(Some(audio)) || (Attempting(s.parent, audio, true) && AttemptFails(s, e))
  {
  }

  /** The restarted child comes up and the second attempt goes well: the call
      returns this child's result, and the child listens for the next. */
  lemma RestartRecovers(model: Model, s: State, audio: seq<real>, voice: string, knobs: Knobs)
    requires s.parent == Spawning(Some(audio)) && s.gen == Some(Fresh())
    requires |audio| <= INPUT_FLOATS && |model(voice, audio, knobs)| <= OUTPUT_FLOATS
    ensures var t := WholeRetry(model, s, voice, knobs);
      && t.parent.Idle? && t.gen.Some? && t.gen.value.voice == voice && Untouched(t.gen.value) && t.gen.value.child.Listening?
      && t.calls == s.calls && t.log == s.log + [Returned(audio, knobs, model(voice, audio, knobs))]
  {
    hide Answer;
    RetryBegins(model, s, audio, voice);
    var ready := Apply(model, Apply(model, Apply(model, s, Load(voice)), Receive), Fill(true));
    AnswerIs(model, ready, ready.gen.value, audio, true, knobs);
  }

  /** Whatever fails the first attempt, the restart and the retry still return this
      call's own result. */
  lemma FailedCallRecovers(model: Model, s: State, e: Event, audio: seq<real>, voice: string, knobs: Knobs)
    requires Attempting(s.parent, audio, false) && AttemptFails(s, e)
    requires |audio| <= INPUT_FLOATS && |model(voice, audio, knobs)| <= OUTPUT_FLOATS
    ensures var t := WholeRetry(model, Apply(model, s, e), voice, knobs);
      t.parent.Idle? && t.log == s.log + [Returned(audio, knobs, model(voice, audio, knobs))]
  {
    hide WholeRetry, AttemptFails, Attempting, Apply;
    FailureRestarts(model, s, e, audio);
    assert Fresh() == Generation([], [], Loading, "", Zeros(16384), Zeros(32768));
    RestartRecovers(model, Apply(model, s, e), audio, voice, knobs);
  }

  /** A child goes away by a crash at any moment, silently and, in the middle of a
      computation, with whatever it had written; otherwise with one error, while
      it loads or listens. */
  lemma ChildGoes(model: Model, g: Generation, e: Event)
    requires IsChildEvent(e) && !g.child.Gone?
    ensures var h := ChildStep(model, g, e);
      && (h.child.Gone? <==> e.Crash? || (e.LoadFails? && g.child.Loading?) || (e.QuitWithError? && g.child.Listening?))
      && (h.child.Gone? ==> h.commands == g.commands && h.input == g.input && h.responses == if e.Crash? then g.responses else g.responses + [Error])
      && (e.Crash? ==> h.output == if g.child.Computing? && |e.scribble| == |g.output| then e.scribble else g.output)
  {
  }

  /** A child that crashes before it has answered, wherever it is in its work. */
  lemma CrashIsRetried(model: Model, s: State, audio: seq<real>, first: Knobs, scribble: seq<real>, voice: string, second: Knobs)
    requires s.parent == Awaiting(audio, first, false) && s.gen.Some? && s.gen.value.responses == []
    requires |audio| <= INPUT_FLOATS && |model(voice, audio, second)| <= OUTPUT_FLOATS
    ensures var t := WholeRetry(model, Apply(model, Apply(model, s, Crash(scribble)), ReceiveBreaks), voice, second);
      t.parent.Idle? && t.log == s.log + [Returned(audio, second, model(voice, audio, second))]
  {
    hide WholeRetry;
    FailedCallRecovers(model, Apply(model, s, Crash(scribble)), ReceiveBreaks, audio, voice, second);
  }

  /** A child already gone, or none at all, when the call begins: noticed at the
      check, when sending, or when reading, the call is retried all the same. */
  lemma DeadChildIsReplaced(model: Model, s: State, audio: seq<real>, first: Knobs, voice: string, second: Knobs)
    requires s.parent.Idle? && (s.gen.Some? ==> s.gen.value.child.Gone? && s.gen.value.responses == [] && Sized(s.gen.value))
    requires |audio| <= INPUT_FLOATS && |model(voice, audio, second)| <= OUTPUT_FLOATS
    ensures var called := Apply(model, s, CallInfer(audio)); var filled := Apply(model, called, Fill(true));
      var ending := [Returned(audio, second, model(voice, audio, second))];
      && WholeRetry(model, Apply(model, called, Fill(false)), voice, second).log == s.log + ending
      && (s.gen.Some? ==> WholeRetry(model, Apply(model, filled, SendBreaks), voice, second).log == s.log + ending)
      && (s.gen.Some? ==>
            WholeRetry(model, Apply(model, Apply(model, filled, Send(first)), ReceiveBreaks), voice, second).log == s.log + ending)
  {
    hide WholeRetry;
    var called := Apply(model, s, CallInfer(audio));
    FailedCallRecovers(model, called, Fill(false), audio, voice, second);
    if s.gen.Some? {
      var filled := Apply(model, called, Fill(true));
      assert filled.parent == Filled(audio, false) && filled.gen.Some? && filled.gen.value.child.Gone?;
      FailedCallRecovers(model, filled, SendBreaks, audio, voice, second);
      FailedCallRecovers(model, Apply(model, filled, Send(first)), ReceiveBreaks, audio, voice, second);
    }
  }

  /** A block too large for the buffer costs a restart and is raised then. */
  lemma OversizedIsRaised(model: Model, s: State, audio: seq<real>, voice: string)
    requires s.parent.Idle? && (s.gen.Some? ==> Sized(s.gen.value)) && |audio| > INPUT_FLOATS
    ensures var restarted := Apply(model, Apply(model, s, CallInfer(audio)), Fill(true));
      var t := Apply(model, Apply(model, Apply(model, restarted, Load(voice)), Receive), Fill(true));
      && t.parent.Idle? && t.log == s.log + [Raised(audio)]
      && t.gen.Some? && t.gen.value.voice == voice && Untouched(t.gen.value) && t.gen.value.child.Listening?
  {
    assert ([] + [Ready])[1..] == [];
  }

  /** A child that does not come up after the restart ends the call and leaves no
      child behind. */
  lemma SpawnFailureRaises(model: Model, s: State, audio: seq<real>)
    requires s.parent == Spawning(Some(audio)) && s.gen == Some(Fresh())
    ensures Apply(model, s, SpawnFails) == State(Idle, None, s.calls, s.log + [Raised(audio)])
    ensures Apply(model, Apply(model, s, LoadFails), Receive) == State(Idle, None, s.calls, s.log + [Raised(audio)])
  {
  }

  // ---------- starting, swapping, stopping ----------

  /** Start brings up a child that listens with the voice it loaded; while one
      lives, or anything else is under way, it does nothing. */
  lemma StartIs(model: Model, s: State, voice: string)
    requires s.parent.Idle? && (s.gen.None? || s.gen.value.child.Gone?)
    ensures var t := Apply(model, Apply(model, Apply(model, s, Start), Load(voice)), Receive);
      && t == State(Idle, t.gen, s.calls, s.log) && t.gen.Some? && Sized(t.gen.value)
      && t.gen.value.voice == voice && Untouched(t.gen.value) && t.gen.value.child.Listening?
  {
    assert ([] + [Ready])[1..] == [];
  }

  lemma StartTwice(model: Model, s: State)
    requires !s.parent.Idle? || (s.gen.Some? && !s.gen.value.child.Gone?)
    ensures Apply(model, s, Start) == s
  {
  }

  lemma SwapAsked(model: Model, s: State, path: string)
    requires s.parent.Idle? && s.gen.Some? && Untouched(s.gen.value) && s.gen.value.child.Listening?
    ensures Apply(model, Apply(model, s, CallSwap(path)), TakeCommand)
         == s.(parent := AwaitingSwap, gen := Some(s.gen.value.(child := Swapping(path))))
  {
    assert ([] + [Swap(path)])[1..] == [];
  }

  lemma SwapAnswered(model: Model, s: State, g: Generation, path: string, e: Event)
    requires s.parent.AwaitingSwap? && s.gen == Some(g) && g.child == Swapping(path) && g.responses == []
    requires e.SwapSucceeds? || e.SwapFails?
    ensures Apply(model, Apply(model, s, e), Receive)
         == s.(parent := Idle, gen := Some(g.(child := Listening, voice := if e.SwapFails? && !e.loaded then g.voice else path)))
  {
    assert ([] + [SwapDone])[1..] == [] && ([] + [Error])[1..] == [];
  }

  /** A swap leaves the child listening with nothing on the wire. It changes the
      voice when it succeeds, and also when it fails after the new file has loaded:
      the child then answers with an error but runs the new voice. */
  lemma SwapIs(model: Model, s: State, path: string, e: Event)
    requires s.parent.Idle? && s.gen.Some? && Untouched(s.gen.value) && s.gen.value.child.Listening?
    requires e.SwapSucceeds? || e.SwapFails?
    ensures Apply(model, Apply(model, Apply(model, Apply(model, s, CallSwap(path)), TakeCommand), e), Receive)
         == s.(gen := Some(s.gen.value.(voice := if e.SwapFails? && !e.loaded then s.gen.value.voice else path)))
  {
    SwapAsked(model, s, path);
    var asked := Apply(model, Apply(model, s, CallSwap(path)), TakeCommand);
    hide Apply;
    SwapAnswered(model, asked, asked.gen.value, path, e);
  }

  /** Waiting for a swap, the parent passes over anything that is neither its
      confirmation nor an error, and ends its wait with those, with a broken pipe,
      or when time is up. */
  lemma SwapWait(model: Model, s: State)
    requires s.parent.AwaitingSwap? && s.gen.Some?
    ensures var g := s.gen.value;
      g.responses != [] ==>
        Apply(model, s, Receive) ==
          s.(parent := if g.responses[0].SwapDone? || g.responses[0].Error? then Idle else AwaitingSwap,
             gen := Some(g.(responses := g.responses[1..])))
    ensures Apply(model, s, SwapTimesOut) == s.(parent := Idle)
    ensures s.gen.value.child.Gone? && s.gen.value.responses == [] ==> Apply(model, s, ReceiveBreaks) == s.(parent := Idle)
  {
  }

  /** Stop drops the child between calls only. */
  lemma StopIs(model: Model, s: State)
    ensures Apply(model, s, Stop) == if s.parent.Idle? then s.(gen := None) else s
  {
  }

  /** An inference that fails in the child is answered by an error, after which
      the child listens again. */
  lemma ChildErrorAnswers(model: Model, g: Generation)
    requires g.child.Fetching? || g.child.Computing?
    ensures ChildStep(model, g, ComputeFails) == g.(responses := g.responses + [Error], child := Listening)
    ensures g.child.Computing? && |model(g.voice, g.child.input, g.child.knobs)| > |g.output| ==>
      ChildStep(model, g, Compute) == g.(responses := g.responses + [Error], child := Listening)
  {
  }
}
