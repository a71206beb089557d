# woys, modelled and proved in Dafny

woys is a real-time voice changer: a microphone is cut into chunks, a voice
model turns each chunk into another voice, and the result is crossfaded,
resampled and handed to PipeWire through a small C helper. This project models
the parts of it where buffers, counters, threads and processes must agree over
unbounded runs, and proves that they do, or exactly when they do.

`dafny verify dfyconfig.toml` checks everything.

| module | models |
|---|---|
| `RingIndex`, `PlaybackMachine`, `Ring` | the lock-free playback ring of `bin/woys-pw-out.c`: index arithmetic, the reader thread and the audio callback interleaved, and the ring as an object updated in place |
| `Samples`, `Alignment`, `Sola`, `Streaming` | the SOLA crossfader and the streaming wrapper around the voice model |
| `Pitch`, `PitchCarry`, `PitchWindows`, `PitchCoarse` | bridging short pitch gaps, the carry between chunks and between overlapping windows, and the coarse bins |
| `InferenceProtocol` | parent and child of the inference subprocess, their pipes and shared buffers, crashes, late replies and restarts |
| `ModelSwap`, `Resample` | start-up, chunks and voice swaps in process over whole runs, and the output resampler they replace |
| `SwapQueue`, `SwapFailing`, `SwapBoard` | waiting for a swap: callers, the worker's loop, start and teardown interleaved, what failing the pending swaps achieves, and the same bookkeeping as an object |
| `Lifecycle` | starting and stopping the engine |
| `SessionPool` | the pool of voice-model sessions |
| `TreeMerge`, `PathRewrite` | the migration from the old directory and configuration names |
| `Toml`, `Config`, `ConfigLaws`, `ConfigFields` | loading, migrating, validating and saving the configuration |

Concurrent components are event machines: one event is one critical section,
one copied frame or one access made outside a lock, a run is any sequence of
events, and an event that is not possible changes nothing. Objects with fields
are classes whose methods are proved against functions of the old state, and
lemmas prove what is promised about those functions. Samples and pitches are
reals. What the outside world decides (which file loads, what the filter
emits, whether a child crashes, what the model computes) is a parameter.

## What the code does not do as its own words say

The model follows the code. Where lemmas are named they show the difference and
say exactly when it arises; the rest are comments that the code does not bear
out.

- A bridged pitch track is not zero on every unvoiced frame that stays
  unbridged: negative values survive `nan_to_num`
  (`Pitch.NegativeFrameSurvives`, `Pitch.FrameOutcome`). They become 0 only in
  the clamp of the next stage (`PitchCoarse.UnbridgedIsSilent`).
- The fast SOLA search and its reference loop differ on a window whose norm is
  exactly 1e-6 (`Alignment.FormsDifferAtEpsilon`) and nowhere else for blocks
  of the length `process` passes (`Alignment.FormsAgreeExactly`).
- `_fail_pending_swaps` can return with a request still incomplete: a stop
  finds the list already drained by the worker's exit that has not finished
  (`SwapQueue.SecondFailerReturnsEarly`, `SwapFailing.FailerResolvesAll`). A
  request reported as failed may still be applied
  (`SwapQueue.FailedMayStillApply`, `SwapFailing.FailedMayApplyExactly`).
- The comment on numbers calls taking an integer for a float a lossless
  widening. An integer of size 2^1024 - 2^970 or more makes the conversion, and
  with it the load of the configuration, raise (`ConfigFields.HugeChunkRaises`,
  `ConfigLaws.LoadRaisesExactly`).
- `_move_dir` overwrites one thing in the new place: a dangling link that an
  old file or link is renamed onto (`TreeMerge.NeverOverwrites`).
- The comment on the pitch carry says that it fires only when the carried frame
  is outside the window. Its age is counted from the previous window's end
  while the next window begins earlier, so it also fires for a frame inside,
  as the left end of a gap that precedes it (`PitchWindows.CarryMisleads`,
  `PitchWindows.CarriedFrameInside`). With an overlap of at least 8 frames, as
  by default, it never fires for a frame outside
  (`PitchWindows.WideOverlapNeverReachesOut`), yet every new frame still agrees
  with one pass over the track (`PitchWindows.NewFramesAgree`). For any overlap,
  `PitchWindows.WindowsAgree` says exactly which frames do.
- The chunk-length leg of the configuration migration replaces 0.25 by 0.25,
  and the comment on the SOLA search leg says 6.0 where the code writes 16.0.
- The comment on the carried pitch anchor puts it at index -age; the code puts
  it at -(age + 1), which is what makes chunks agree with the whole track.
- The first emit of a stream is delayed by the search length more than the
  others, so that many samples before the second one are never heard
  (`Streaming.FirstEmitIs`); the comment on that call mentions only that its
  search slack is unused.
- The stdin loop's comment says that a partial frame is joined to the next
  read; the code drops its bytes.

## Model

| member | source | states |
|---|---|---|
| RingIndex.PowerOfTwoTest | bin/woys-pw-out.c:449-455 | `x & (x - 1)` is 0 exactly for powers of two |
| RingIndex.MaskIsModulo | bin/woys-pw-out.c:105-109 | masking with a power of two minus one is reduction modulo that power, for every counter |
| RingIndex.MaskWorksExactlyForPowersOfTwo | bin/woys-pw-out.c:449-455 | the mask reduces every counter modulo the capacity if and only if the command-line check accepts the capacity |
| RingIndex.AcceptedSizes | bin/woys-pw-out.c:449-455 | the accepted sizes are the powers of two from 2^8 to 2^31 |
| RingIndex.CounterWraps | bin/woys-pw-out.c:105-109 | counters count modulo 2^32 |
| RingIndex.CapacityDividesU32 | bin/woys-pw-out.c:449-455 | every accepted capacity divides 2^32, so slots survive the counters' wrap |
| RingIndex.OccupiedIsDifference | bin/woys-pw-out.c:105-117 | the masked difference of two wrapped counters is the true number of frames between them, at any totals |
| RingIndex.TransferSlotIsModulo | bin/woys-pw-out.c:127-133 | the two-part copy visits the slots of consecutive counter values, across the end of the buffer and across 2^32 |
| RingIndex.SlotsDistinct | bin/woys-pw-out.c:112-117 | fewer than a capacity apart, two counter values never share a slot |
| PlaybackMachine.ApplyKeeps | bin/woys-pw-out.c:105-228 | every step of reader and callback, with stale views of the other's index, keeps the invariant tying counters, buffer, copies in progress and output to the frames read |
| PlaybackMachine.RunKeeps | bin/woys-pw-out.c:105-228 | hence every interleaving does |
| PlaybackMachine.RingRefinesFifo | bin/woys-pw-out.c:105-155 | in every interleaving the ring is a FIFO: its contents are the frames pushed and not yet popped, in order, between 0 and capacity - 1 of them, and its occupancy reads as that number |
| PlaybackMachine.CopiesNeverOverlap | bin/woys-pw-out.c:120-155 | a slot a pop in progress still reads is never one a push in progress writes |
| PlaybackMachine.HelperConservesFrames | bin/woys-pw-out.c:197-228 | frames given to PipeWire without padding, then the callback's, the ring's and the reader's remainder, are exactly the frames read, in order; silence only ends a buffer; underruns counts the short buffers |
| PlaybackMachine.CallbackDelivers | bin/woys-pw-out.c:197-228 | in every run, whatever interleaves and however stale the callback's view, it queues next one buffer of the requested frames, or of as many as fit when more or none are requested: the oldest it could see, then zeros |
| PlaybackMachine.PushDelivers | bin/woys-pw-out.c:139-155 | in every run a push publishes at once the next frames of its block, as many as are left and fit by its view |
| PlaybackMachine.ReaderTakes | bin/woys-pw-out.c:290-330 | the reader takes a block whenever it has none, and nothing after the end of its input |
| PlaybackMachine.UninterruptedCallback | bin/woys-pw-out.c:197-228 | a callback that nothing interrupts queues the oldest frames then silence and leaves the rest of the ring |
| PlaybackMachine.UninterruptedPush | bin/woys-pw-out.c:139-155 | a push that nothing interrupts appends as much of its block as there is room for |
| Ring.Ring.constructor | bin/woys-pw-out.c:89-97 | a new ring is empty |
| Ring.Ring.Readable | bin/woys-pw-out.c:105-109 | how many frames the ring holds, below its capacity |
| Ring.Ring.Writable | bin/woys-pw-out.c:112-117 | the free room, one slot reserved |
| Ring.Ring.Pop | bin/woys-pw-out.c:120-136 | takes the oldest frames into the destination, the rest of the destination and the order of the rest of the ring unchanged |
| Ring.Ring.Push | bin/woys-pw-out.c:139-155 | appends as many frames as fit behind the others |
| Ring.AudioCallback.OnProcess | bin/woys-pw-out.c:197-228 | fills the buffer as the machine's uninterrupted callback does: as many frames as requested, or the whole buffer when more or none are; the oldest ones, then zeros; a short one counted |
| Ring.AdvanceHead | bin/woys-pw-out.c:134-135 | moving `head` drops the oldest frames, wrap included |
| Ring.AdvanceTail | bin/woys-pw-out.c:153-154 | moving `tail` over written slots appends their frames, wrap included |
| Ring.PushRanges | bin/woys-pw-out.c:143-152 | the two copies of a push fill the free slots behind the live frames and touch no live one |
| Ring.PopRanges | bin/woys-pw-out.c:125-133 | the two copies of a pop read the oldest frames in order |
| Samples.CauchySchwarz | src/audio/sola.py:211-219 | the inequality for blocks of samples, with equality exactly for proportional blocks |
| Samples.DotLaws | src/audio/sola.py:211-219 | the inner product adds up over concatenation, and of one sample each is their product |
| Samples.RoundIsNear | src/audio/sola.py:62-71 | rounding gives the nearest integer, the even one of two |
| Samples.RoundedOnce | src/audio/sola.py:62-71 | which is determined by that |
| Alignment.BestOffsetLoop | src/audio/sola.py:247-270 | the scan returns the first best window that reaches the threshold, or the fallback |
| Alignment.BestOffset | src/audio/sola.py:183-230 | on blocks of the passed length the offset stays in the search range, and clipped means the far edge |
| Alignment.BestOffsetFinds | src/audio/sola.py:183-230 | the array form aligns if and only if some window of norm above 1e-6 has an inner product with the tail of at least the threshold times both norms, and then on the first such that no loud window beats in cross-multiplied form; clipped means the far edge |
| Alignment.LoopFinds | src/audio/sola.py:247-270 | the same of the loop, with windows of norm exactly 1e-6 included |
| Alignment.CorrelationIs | src/audio/sola.py:211-218 | a correlation times both norms is the inner product |
| Alignment.WindowEnergyIsDirect | src/audio/sola.py:206-210 | the difference of running sums is the window's own energy |
| Alignment.ArgMaxIsFirstMax | src/audio/sola.py:219-222 | the array form's argmax is the lowest index of the largest score, which is what the strict comparison of the loop keeps |
| Alignment.FormsAgreeExactly | src/audio/sola.py:183-270 | on blocks of the passed length both forms return the same offset, fallback and clipped flags if and only if no window whose norm is exactly 1e-6 reaches the threshold as the first best of the search |
| Alignment.FormsAgree | src/audio/sola.py:183-270 | hence they agree whenever no window of the search has a norm of exactly 1e-6 |
| Alignment.FormsDifferAtEpsilon | src/audio/sola.py:212-218 | at a norm of exactly 1e-6 the loop aligns and the array form falls back |
| Alignment.FormsAgreeOnLongHead | src/audio/sola.py:200-221 | on longer blocks they agree if and only if no window past the search range reaches the threshold and beats every window within it |
| Alignment.FormsDifferOnLongHead | src/audio/sola.py:200-221 | on a block longer than tail plus search the array form returns an offset past the search range where the loop falls back |
| Alignment.CorrelationAtMostOne | src/audio/sola.py:211-218 | a correlation is at most 1, and 1 exactly for a positive multiple of the tail |
| Alignment.SearchFindsTail | src/audio/sola.py:183-230 | if the block ends with the tail itself the search succeeds at the first positive multiple of it |
| Sola.LengthsAre | src/audio/sola.py:61-71 | crossfade, search and context are their milliseconds at the rate, rounded |
| Sola.FadeLaws | src/audio/sola.py:74-121 | Hann fades sum to 1, equal-power fades have squares summing to 1, none is negative |
| Sola.FadeDirection | src/audio/sola.py:74-121 | the old side of each pair falls strictly from 1, the new side rises strictly from 0 |
| Sola.EmitSample | src/audio/sola.py:366-437 | in every run: without a held tail sample j of an emit is sample j of the call; with one it is sample j from the best offset, mixed over the crossfade with the tail by cosine and sine of j quarter-turn steps, or their squares when aligned |
| Sola.CountersFollow | src/audio/sola.py:396-410 | in every run a search adds to the fallbacks when it finds nothing and to the clipped ones when it ends at the far edge; nothing else counts |
| Sola.SeamIsContinuous | src/audio/sola.py:396-428 | in every run a crossfaded call starts on the held tail's first sample and after the crossfade continues with its own samples from one offset within the search |
| Sola.EmitLengthIsConstant | src/audio/sola.py:356-437 | in every run each call emits max(0, length - crossfade - search) samples whatever offset wins, and holds the last crossfade of its input or nothing |
| Sola.RunIsBounded | src/audio/sola.py:396-437 | in every run with inputs within M, calls that align emit within M, and calls that fall back within sqrt(2) M |
| Sola.SolaStream.constructor | src/audio/sola.py:309-345 | a new stream holds no tail and has counted nothing |
| Sola.SolaStream.Reset | src/audio/sola.py:347-350 | back to that state |
| Sola.SolaStream.Process | src/audio/sola.py:356-437 | state and output of the in-place call are those of the functions the run lemmas are about |
| Sola.SolaStream.Flush | src/audio/sola.py:439-455 | emits the faded tail once and forgets it, counters kept |
| Sola.FlushFadesOut | src/audio/sola.py:448-454 | the flushed tail starts at full level, falls strictly and ends in silence |
| Sola.FlushIsLinear | src/audio/sola.py:448-454 | sample i of a flushed tail of n keeps all but i of n - 1 equal parts |
| Streaming.StreamingPipeline.ProcessStreaming | src/audio/inference.py:348-397 | history, trim and SOLA call of one chunk, for any model function, with or without SOLA |
| Streaming.StreamingPipeline.ResetStreamingState | src/audio/inference.py:399-407 | zero history and a fresh SOLA state |
| PitchCarry.PitchTracker.Reset | src/audio/inference.py:408-412 | no carry |
| Streaming.HistoryIsTimelineEnd | src/audio/inference.py:359-363 | after any chunks the history is the end of everything fed in, zeros first |
| Streaming.IdentitySolaInput | src/audio/inference.py:374-391 | with an identity model SOLA receives the chunk preceded by exactly crossfade plus search samples of the timeline |
| Streaming.IdentityWithoutSola | src/audio/inference.py:389-397 | with SOLA off the chunk is preceded by exactly the crossfade |
| Streaming.HeldTailIsTimelineEnd | src/audio/sola.py:430-435 | the held tail is then the last crossfade of the timeline |
| Streaming.SeamIsTransparent | src/audio/inference.py:348-397 | an identity model's audible seam never falls back; it aligns at the far edge, counted as clipped, if and only if no earlier window is a positive multiple of the tail, and then it emits its slice of the input delayed by the crossfade |
| Streaming.RunIsTransparent | src/audio/inference.py:348-397 | a run of such seams emits one unbroken stretch of the input |
| Streaming.FirstEmitIs | src/audio/inference.py:348-397 | with an identity model the first emit is the timeline moved back by crossfade and search, so the samples of one search length before the second emit are never emitted |
| Streaming.EmitFollowsChunk | src/audio/inference.py:374-391 | with a model of rate ratio R each emit is within R + 3/2 of R times the chunk, although three lengths are rounded at two rates, and exactly the chunk at 16 kHz |
| Streaming.DropIs | src/audio/inference.py:374-391 | the trimmed context is what is no part of the search, in the proportion of output to input length, rounded |
| Pitch.InterpolateVoicedGaps | src/audio/pitch.py:75-136 | the run-walking loop computes the bridged track of the specification |
| Pitch.BridgeRun | src/audio/pitch.py:98-135 | one turn of the loop finishes one maximal unvoiced run and nothing else |
| Pitch.RunIsBridged | src/audio/pitch.py:101-134 | a maximal run is glided if and only if it is short and bracketed, or leading and the carried anchor is near enough |
| Pitch.RunFormula | src/audio/pitch.py:75-136 | each frame of an unvoiced run of at most 8 frames that a voiced one ends lies in equal steps of log pitch between that one and the voiced frame before it, or at a chunk's start a carried one at most 8 frames from the end; any other frame is as it was, NaN as 0 |
| Pitch.GlideIsMonotone | src/audio/pitch.py:110-113 | the log-linear glide moves strictly from one pitch to the other |
| Pitch.InnerGapIsMonotone | src/audio/pitch.py:101-113 | from anchor to anchor the bridged track is strictly monotone, or constant when the anchors agree |
| Pitch.LeadingGapIsMonotone | src/audio/pitch.py:114-134 | the same from the carried pitch to the first voiced frame of a chunk |
| Pitch.FrameOutcome | src/audio/pitch.py:75-136 | voiced frames stay, exactly the gap frames become voiced, and any other frame becomes 0 if and only if it was not negative |
| Pitch.NegativeFrameSurvives | src/audio/pitch.py:79-83 | a negative frame outside a gap stays negative |
| Pitch.BridgingIsIdempotent | src/audio/pitch.py:75-136 | bridging a bridged track, with the same carry or none, changes nothing |
| PitchCarry.PitchTracker.Track | src/audio/inference.py:199-221 | one chunk is bridged from the carry, and the carry updated |
| PitchCarry.LastVoicedKept | src/audio/inference.py:212-216 | bridging never moves the last voiced frame nor its pitch |
| PitchCarry.CarryStaysTrue | src/audio/inference.py:211-221 | over windows that repeat nothing the carry is always the last voiced pitch of everything so far and the length of the unvoiced run behind it |
| PitchCarry.FrameAgrees | src/audio/pitch.py:114-134 | the virtual anchor gives a leading gap the same anchors, step and span as in the whole track |
| PitchCarry.ChunksAgree | src/audio/inference.py:199-221 | for windows that repeat nothing and any chunking, every frame equals that of one pass over the concatenated track, except in a chunk's trailing unvoiced run, which stays as cleaned |
| PitchWindows.CarryMatters | src/audio/pitch.py:114-134 | two carries give a frame the same value if and only if the frame is outside the leading run, or both or neither bridge it and, if both do, along the same line in log pitch |
| PitchWindows.WindowsAgree | src/audio/inference.py:359-370 | for any overlap and any run of windows, a frame equals that of one pass over the track if and only if the engine's carry is equivalent, in that sense, to the true carry of the track before the window; a trailing unvoiced run stays as cleaned |
| PitchWindows.LateFramesAgree | src/audio/pitch.py:114-124 | from a window's ninth frame on every frame agrees, whatever the carry |
| PitchWindows.NewFramesAgree | src/audio/inference.py:359-370 | with an overlap of at least 8 frames every new frame of every window agrees with one pass, whatever the carry: it only ever touches frames that repeat the past |
| PitchWindows.CarriedFrameInside | src/audio/inference.py:206-211 | a true carry that fires although its frame is inside the window bridges the run from a frame that comes after it |
| PitchWindows.WideOverlapNeverReachesOut | src/audio/inference.py:206-211 | with an overlap of at least 8 frames the engine's carry, in any window of a run that starts in silence, fires only in that case |
| PitchWindows.CarriedFrameOutside | src/audio/inference.py:212-216 | when the carried frame does lie before the window, the frame agrees if and only if nothing is repeated, the gap is too long for one pass too, or it is short even by the inflated age and both ends have the same pitch |
| PitchWindows.CarryStaysTrueExactly | src/audio/inference.py:211-221 | a window keeps the carry true if and only if it repeats nothing, has a voiced frame, or there never was one |
| PitchWindows.CarryAtIs | src/audio/inference.py:211-221 | before any window of a run that starts in silence the carry is the last voiced pitch with its true age plus the overlap once for every window without a voiced frame since |
| PitchWindows.CarryMisleads | src/audio/inference.py:206-221 | two windows in which the carry voices a frame that one pass leaves silent |
| PitchCoarse.ToPitchCoarse | src/audio/pitch.py:158-187 | the last frames, negatives as 0, zeros before; bin 0 throughout for an all-silent track, otherwise each frame's bin |
| PitchCoarse.BinInRange | src/audio/pitch.py:183-187 | every bin lies between 1 and 255 |
| PitchCoarse.BinIs | src/audio/pitch.py:178-195 | the bin of a positive pitch is its share of the mel range from 50 to 1100 Hz on the bins 1 to 255, clipped and rounded half to even |
| PitchCoarse.BinMonotone | src/audio/pitch.py:183-187 | a higher pitch never gets a lower bin |
| PitchCoarse.BinEnds | src/audio/pitch.py:169-187 | up to 50 Hz the bin is 1, from 1100 Hz on 255 |
| PitchCoarse.UnbridgedIsSilent | src/audio/pitch.py:158-182 | a frame left invalid by bridging reaches the model as pitch 0 |
| InferenceProtocol.ChildKeepsInv | src/audio/inference_worker.py:201-333 | every step of the child's loop, a crash or an exit keeps the protocol invariant |
| InferenceProtocol.ParentKeepsInv | src/audio/inference_client.py:316-439 | so does every step of start, infer, retry, swap, timeout and restart |
| InferenceProtocol.BlocksAreCorrect | src/audio/inference.py:105-152 | in every interleaving a returned block is some voice's result on exactly that call's samples and knobs |
| InferenceProtocol.NothingOutstandingBetweenCalls | src/audio/inference.py:105-152 | between calls no inference is queued, running or answered, and every call has ended exactly once |
| InferenceProtocol.UndisturbedCall | src/audio/inference_client.py:316-384 | with a listening child and blocks that fit, a call returns the current voice's result and leaves the child ready |
| InferenceProtocol.FailureRestarts | src/audio/inference.py:116-130 | whatever fails a first attempt (no child, a dead one, an oversized block, a pipe broken on sending or reading, an answer that is no result), the call stays pending and a new child starts on empty pipes and zeroed buffers |
| InferenceProtocol.SecondFailureRaises | src/audio/inference.py:124-131 | the same at the second attempt raises |
| InferenceProtocol.OnlyFailuresRestart | src/audio/inference.py:105-131 | nothing else ends an attempt but its result |
| InferenceProtocol.RaisedAfterRestart | src/audio/inference.py:116-131 | a call is raised only when the restarted child does not come up or the second attempt fails |
| InferenceProtocol.FailedCallRecovers | src/audio/inference.py:116-130 | after any failed first attempt the restart and the retry return the call's own result |
| InferenceProtocol.CrashIsRetried | src/audio/inference_client.py:340-358 | so after a crash at any point before the answer |
| InferenceProtocol.DeadChildIsReplaced | src/audio/inference_client.py:330-358 | so with no child or a dead one, noticed at the check, on sending or on reading |
| InferenceProtocol.OversizedIsRaised | src/audio/inference_client.py:335-338 | a block that does not fit costs a restart and is raised then, the new child listening |
| InferenceProtocol.SpawnFailureRaises | src/audio/inference_client.py:225-233 | a restart whose child does not come up raises the call and leaves no child |
| InferenceProtocol.StartIs | src/audio/inference_client.py:225-250 | start leaves a child listening with the voice it loaded |
| InferenceProtocol.SwapIs | src/audio/inference_worker.py:217-255 | a swap leaves the child listening with nothing on the wire and the new voice, except the old one if the file did not load; a failure after it has loaded answers an error and keeps the new voice |
| InferenceProtocol.SwapWait | src/audio/inference_client.py:386-412 | a waiting swap passes over other messages and ends with a confirmation, an error, a broken pipe or the timeout |
| InferenceProtocol.ChildGoes | src/audio/inference_worker.py:133-211 | a child goes by a crash, silently and with a half-written output at worst, or with one error while loading or listening |
| InferenceProtocol.LateSwapReplyIsHarmless | src/audio/inference_client.py:386-439 | a reply of an abandoned swap costs the next call one restart; the retry still returns that call's own result |
| Resample.StreamResampler.constructor | src/audio/resample.py:66-86 | a new stream is open, with its whole fade budget |
| Resample.StreamResampler.ApplyColdFade | src/audio/resample.py:88-106 | scales the block in place by the ramp from where the last one stopped, and spends the budget |
| Resample.StreamResampler.Process | src/audio/resample.py:108-121 | faded output, passthrough at equal rates, and an exception on a finalised stream |
| Resample.StreamResampler.Flush | src/audio/resample.py:123-131 | drains and finalises, unless the rates are equal |
| Resample.LinspaceIsFade | src/audio/resample.py:99-104 | the chunk's own ramp is a piece of the one ramp over the stream |
| Resample.StreamResampler.Drive | src/audio/resample.py:108-131 | over any sequence of process and flush calls the joined output is everything the filter emitted under one ramp, and the stream ends finalised exactly if a flush drained it |
| Resample.ColdFadeIgnoresChunking | src/audio/resample.py:88-131 | for any split into emits, output sample i is scaled by i/total when i < total and unchanged after |
| ModelSwap.Engine.constructor | src/audio/engine.py:222-246 | a new engine has no session, no resampler, no known rate, and a crossfader at 16 kHz if enabled |
| ModelSwap.Engine.CachedRvcSr | src/audio/model_swap.py:270-283 | returns the path's true rate, caches it under the resolved path, and sets SOLA to it |
| ModelSwap.Engine.RebuildSolaForRate | src/audio/model_swap.py:285-302 | SOLA runs at the rate, or not at all when disabled; unchanged at the same rate |
| ModelSwap.Engine.ProbeSrFor | src/audio/model_swap.py:354-365 | the probe of another voice leaves the running one in place, even when it fails |
| ModelSwap.Engine.EnsureSessions | src/audio/model_swap.py:160-163 | start-up runs the configured voice at its own rate, or raises exactly when it does not load or its rate is neither cached nor probed |
| ModelSwap.Engine.BeginLoop | src/audio/engine.py:884-894 | the loop begins consistent, with a fresh resampler and no held tail |
| ModelSwap.Engine.StartUp | src/audio/engine.py:599-608 | up to the loop: consistent with the configured voice exactly when it and the library load and its rate is known |
| ModelSwap.Engine.WarmVoice | src/audio/model_swap.py:347-365 | warming keeps every cached rate true, learns the voice's when the probe works, and raises exactly when the file does not load |
| ModelSwap.Engine.WarmLibrary | src/audio/model_swap.py:346-352 | warming the library learns exactly the probed voices up to the first file that does not load |
| ModelSwap.WarmedPathsAre | src/audio/model_swap.py:346-352 | those are the paths of entries whose probe works and up to which every file loads |
| ModelSwap.Engine.FlushTail | src/audio/model_swap.py:469-481 | plays the faded tail through the old resampler, whole or not at all when the filter raises, and reports every stream it finalised |
| ModelSwap.PlayedTailIs | src/audio/model_swap.py:469-481 | a drained tail is what the filter gave back, in order, under one ramp; nothing once the filter raises |
| ModelSwap.Engine.ApplyOneSwap | src/audio/model_swap.py:458-595 | success or failure, SOLA and resampler run at the running voice's rate, the resampler takes the next chunk, session and precision belong to the configured voice; the voice changes exactly when the file loads and has a cached or probed rate, and the resampler exactly when the rate moved or a tail was played |
| ModelSwap.Engine.RollBack | src/audio/model_swap.py:555-576 | a failed swap leaves a consistent engine on the old voice |
| ModelSwap.Engine.Commit | src/audio/model_swap.py:577-592 | a successful one on the new voice, the resampler rebuilt when the rate moved or the stream was finalised |
| ModelSwap.Engine.ApplySwaps | src/audio/model_swap.py:426-456 | after any sequence of swaps the engine is consistent and runs the last voice that succeeded |
| ModelSwap.Engine.PlayChunk | src/audio/engine.py:1079-1147 | a gated chunk writes its silence, a dropped one nothing, a voiced one its audio through a resampler from the running voice's rate to the sink's; the engine stays consistent and it raises exactly when the filter does |
| ModelSwap.Engine.Loop | src/audio/engine.py:1014-1147 | over any chunks and swaps the engine stays consistent, ends early only where a filter raises, and its voice and known rates are those of the swaps that could succeed |
| ModelSwap.Engine.Live | src/audio/engine.py:531-777 | a whole run leads from a stopped engine back to one, with the voice and known rates of its start-up, library and swaps |
| ModelSwap.LastAppliedIs | src/audio/model_swap.py:426-456 | that voice is the target of the last success, or the old one |
| ModelSwap.VoiceStaysKnown | src/audio/model_swap.py:270-283 | no run forgets a rate, and the running voice's stays known, so the next run starts it without a probe |
| SwapQueue.StepKeepsInv | src/audio/model_swap.py:400-456 | every step of callers, worker, teardown and start keeps the bookkeeping invariant |
| SwapQueue.AppliedInOrder | src/audio/model_swap.py:426-456 | in every interleaving swaps are applied in request order and at most once, queued ones are outstanding, and completed without error means applied |
| SwapQueue.StoppedMeansResolved | src/audio/engine.py:704-777 | once an engine has been stopped every request is completed, unless a worker that outlived the stop is still failing what was pending |
| SwapQueue.FlagChanges | src/audio/engine.py:443-452 | the stop flag is set only by an abort, a stop's beginning or the leaving worker, and cleared only by a start |
| SwapQueue.StopAndStart | src/audio/engine.py:484-521 | a stop with nothing pending leaves the engine stopped, and the next start opens it once the worker is gone |
| SwapFailing.FailerResolvesAll | src/audio/model_swap.py:607-621 | a call of the teardown or of the worker's exit is sure, whatever interleaves, to end with every request completed if and only if when it begins the other party holds no incomplete one; otherwise some continuation ends it with a caller stranded |
| SwapFailing.BusyFailerStrands | src/audio/model_swap.py:607-621 | that continuation: the call's own steps to its end, the other party not moving |
| SwapQueue.IncompleteIsHeld | src/audio/model_swap.py:607-621 | at the end of any such call, what is incomplete is in the other party's hands |
| SwapQueue.SecondFailerReturnsEarly | src/audio/engine.py:1335-1340 | a run in which a stop finds nothing to fail while the worker's exit has yet to complete a request |
| SwapQueue.FailerAdvances | src/audio/model_swap.py:618-621 | in every reachable state a failer holding requests has a step that brings it nearer its end |
| SwapQueue.FailerUndisturbed | src/audio/model_swap.py:618-621 | and no one else's step delays it |
| SwapFailing.AppliedExactly | src/audio/engine.py:1014-1018 | in every reachable state a request can still be applied by some continuation if and only if it already is, is in the batch of a worker that no exception has stopped, or is queued while no worker exists yet and no teardown runs, or while the worker has passed its flag test, or while the flag is clear and nothing has ended the loop |
| SwapFailing.QueueBehindTheLastBatch | src/audio/engine.py:1014-1018 | what is queued behind a batch is never applied once the flag is set or an exception is on its way |
| SwapFailing.FailedMayApplyExactly | src/audio/model_swap.py:618-621 | a request that is marked as failed is applied by some continuation if and only if it already is or is in such a batch; otherwise its failure is final |
| SwapFailing.NeverApplied | src/audio/model_swap.py:426-456 | in every reachable state any other request is never applied, in any continuation |
| SwapQueue.FailedMayStillApply | src/audio/model_swap.py:436-456 | a run in which a request reported as failed is applied |
| SwapBoard.Board.RequestModelSwap | src/audio/model_swap.py:400-414 | queues the request, or fails it at once on a stopped engine |
| SwapBoard.Board.MaybeSwapModel | src/audio/model_swap.py:426-456 | drains and applies in order up to the first exception, failing exactly the others and completing the whole batch either way |
| SwapBoard.AppliedPrefixIs | src/audio/model_swap.py:436-456 | applied are the requests that succeed with none before them raising |
| SwapBoard.BatchRun | src/audio/model_swap.py:436-456 | the interleaved machine's own steps through a batch come to the same, and end the loop if one raised |
| SwapBoard.Board.ResolveSwap | src/audio/model_swap.py:597-605 | completes the request, then forgets it |
| SwapBoard.Board.FailPendingSwaps | src/audio/model_swap.py:607-621 | alone, it completes every request, failing exactly those not completed before |
| SwapFailing.FailingAlone | src/audio/model_swap.py:607-621 | the machine's own steps of a failing call fail exactly what was not completed before |
| Lifecycle.StepKeepsInv | src/audio/engine.py:458-777 | every step of start, stop, worker, self-abort and host keeps the lifecycle invariant |
| Lifecycle.StartIs | src/audio/engine.py:484-521 | a start begins a run exactly when the lock is free and the last worker gone |
| Lifecycle.WorkerLoops | src/audio/engine.py:1014-1018 | a worker begins chunks while the flag is clear and leaves once it is set |
| Lifecycle.StagesInOrder | src/audio/engine.py:536-569 | no step moves a worker but by one stage, and only that worker's own event does |
| Lifecycle.FlagIsSetBy | src/audio/engine.py:1294-1304 | the stop flag is set by an abort, a stop, or a worker that has drained, and cleared by a start |
| Lifecycle.StopIs | src/audio/engine.py:699-777 | a stop takes the lock and sets the flag unless stopped already, and ends with the run torn down |
| Lifecycle.AtMostOneWorker | src/audio/engine.py:484-521 | at most one worker is ever alive, the latest |
| Lifecycle.FlagClearedWhenIdle | src/audio/engine.py:484-494 | the stop flag is cleared only by a start that finds every worker gone |
| Lifecycle.StopIsNotLost | src/audio/engine.py:544-552 | from the moment the flag is set while a worker lives, whatever happens, that worker begins no further chunk, a worker still waiting to warm up never does, and no other is started before it is gone |
| Lifecycle.RunsBeginClean | src/audio/engine.py:484-521 | every earlier run is torn down before one begins, which finds the collector as that teardown or the host left it and not as the engine set it |
| Lifecycle.CollectorRestored | src/audio/engine.py:761-777 | teardown leaves the collector on if that run's start found it on, otherwise as the host last left it, whatever the host does during the run |
| Lifecycle.IdleHostKept | src/audio/engine.py:506-508 | while the host leaves the collector alone, every teardown in every run restores the one setting there was before |
| Lifecycle.Engine.Start | src/audio/engine.py:484-521 | the locked section of start is the machine's step |
| Lifecycle.Engine.TeardownLocked | src/audio/engine.py:704-777 | so is the teardown once the worker was waited for |
| Lifecycle.Engine.StopBegin | src/audio/engine.py:699-709 | stop up to its wait sets the flag, unless the engine is stopped already |
| Lifecycle.Engine.StopEnd | src/audio/engine.py:699-703 | stop ends torn down, the collector left by that same rule |
| SessionPool.RvcSessionPool.constructor | src/audio/sessions.py:306-315 | an empty pool of size at least 1 |
| SessionPool.RvcSessionPool.LookUp | src/audio/sessions.py:338-344 | a hit returns the key's session and makes it the most recent |
| SessionPool.RvcSessionPool.Store | src/audio/sessions.py:354-367 | another thread's session wins; otherwise the new one is cached and the least recent evicted, never itself |
| SessionPool.RvcSessionPool.GetOrCreate | src/audio/sessions.py:333-367 | without interference the returned session is the cached one of that key |
| SessionPool.RvcSessionPool.EvictAll | src/audio/sessions.py:396-399 | empties the pool |
| SessionPool.InsertIs | src/audio/sessions.py:358-367 | the eviction loop drops at most one key, the least recent |
| SessionPool.InsertKeeps | src/audio/sessions.py:354-367 | a key just inserted is still cached afterwards |
| SessionPool.PoolSafe | src/audio/sessions.py:333-399 | in every interleaving of the two sections and evict_all the order lists each cached key once, the size is kept, and every session handed out was built for the requested key |
| SessionPool.SectionsAre | src/audio/sessions.py:333-367 | what each section hands out, in any state: the cached session, the one cached meanwhile, the built one, or nothing |
| SessionPool.ContentsAreMostRecent | src/audio/sessions.py:338-399 | in sequential runs of requests and evict_all a key is cached if and only if, counting from the last evict_all, it was used and fewer than the pool's size of other keys were used since |
| TreeMerge.MoveDir | scripts/migrate_to_woys.py:88-138 | the recursive loop over children, in any order, computes the specified move; a dry run changes nothing |
| TreeMerge.MergeEntries | scripts/migrate_to_woys.py:116-132 | one directory's loop computes the merge of its entries |
| TreeMerge.LeavesConserved | scripts/migrate_to_woys.py:88-138 | every file or link of the old tree ends at its path on exactly one side: it stays only if the new side has something at its path or no directory on the way to it, or nothing moves at all; one under a conflicting dropped name goes; nothing appears from nowhere |
| TreeMerge.FirstMove | scripts/migrate_to_woys.py:107-112 | with nothing in the new place the whole old tree is renamed, as is a file or link onto a dangling link |
| TreeMerge.NoMove | scripts/migrate_to_woys.py:105-112 | nothing moves when there is nothing, and a directory facing a dangling link raises |
| TreeMerge.FreeNodeMoves | scripts/migrate_to_woys.py:116-132 | whatever finds its place free moves as a whole, empty directories included |
| TreeMerge.DirectoriesKept | scripts/migrate_to_woys.py:116-132 | every directory of the new tree is kept |
| TreeMerge.NeverOverwrites | scripts/migrate_to_woys.py:107-112 | everything already in the new tree is kept if and only if it is not a dangling link that a non-directory is renamed onto |
| TreeMerge.EmptiedIsRemoved | scripts/migrate_to_woys.py:134-138 | at every depth a merged directory is gone or still holds something that met something, which is otherwise as it was |
| TreeMerge.SecondMoveDoesNothing | scripts/migrate_to_woys.py:88-138 | moving again changes nothing |
| PathRewrite.TextIsClean | scripts/migrate_to_woys.py:156-165 | no legacy path or sink name is left in a rewritten text, so rewriting again finds nothing |
| PathRewrite.ReplaceIs | scripts/migrate_to_woys.py:156-162 | the text falls into pieces without the old path, joined by it before and by the new path after |
| PathRewrite.SinkRenamed | scripts/migrate_to_woys.py:163-165 | exactly the old sink name becomes the new one |
| PathRewrite.RewriteAt | scripts/migrate_to_woys.py:166-176 | a latency below 300 becomes 300 under its own key only, and items of a list stand under no key |
| PathRewrite.RewriteMigrates | scripts/migrate_to_woys.py:141-176 | at any depth no legacy text and no stale latency is left, and the shape is kept |
| PathRewrite.RewriteFixes | scripts/migrate_to_woys.py:141-176 | a value is changed exactly when something in it is to migrate |
| PathRewrite.RewriteIsIdempotent | scripts/migrate_to_woys.py:141-176 | rewriting twice is rewriting once |
| Config.LoadConfig | src/tui/config.py:420-592 | the step-by-step load computes the configuration of the specification, or raises when it does |
| Config.RunLegs | src/tui/config.py:464-578 | every key stays, an unpinned value that is an old default of the file's era becomes the new default, and every other value is kept |
| Config.ChainIsLegs | src/tui/config.py:486-578 | leg after leg, with later legs seeing what earlier ones wrote, comes to that same per-value rule |
| Config.Validate | src/tui/config.py:207-275 | exactly the unacceptable gated values are reset to their defaults; it raises exactly when a float field holds an integer no float can hold |
| Config.LoadProfiles | src/tui/config.py:278-311 | every profile is migrated and validated and non-tables dropped, or it raises when one profile's check does |
| ConfigLaws.LegsAreIdempotent | src/tui/config.py:486-578 | running an era's legs again changes nothing |
| ConfigLaws.LegsFix | src/tui/config.py:486-578 | legs leave a table alone if and only if each value is pinned, no old default of the era, or the new default already |
| ConfigLaws.OldDefaultsAre | src/tui/config.py:486-578 | the old defaults of each era and the new ones, as numbers |
| ConfigLaws.SchemaIs | src/tui/config.py:437-452 | a missing or non-integer schema counts as 0 |
| ConfigLaws.PinsAre | src/tui/config.py:453-467 | pinned are the texts of a list or a lone text |
| ConfigLaws.AcceptedValues | src/tui/config.py:204-250 | what each kind of field accepts, bounds included and booleans kept apart from numbers |
| ConfigLaws.LaterErasKeepOldValues | src/tui/config.py:486-530 | a value that is an old default only of an earlier era is kept, so legs of another era could still move it |
| ConfigLaws.LoadRaisesExactly | src/tui/config.py:229-234 | loading raises if and only if some float field of the document, at top level or in a profile table, holds an integer of size 2^1024 - 2^970 or more |
| ConfigFields.HugeChunkRaises | src/tui/config.py:229-234 | an integer chunk length outside its range raises if and only if its size is 2^1024 - 2^970 or more, and is reset to 0.25 otherwise |
| ConfigLaws.LoadIsValid | src/tui/config.py:253-311 | of any other document, every field and every gated profile entry of the result is acceptable |
| ConfigLaws.FieldOutcome | src/tui/config.py:420-592 | every field of a document that loads: its own default if missing, otherwise the migrated value if the field accepts it, otherwise its own default |
| ConfigLaws.ProfileOutcome | src/tui/config.py:278-311 | the same for every entry of every profile; profiles that are no tables are dropped |
| ConfigLaws.ChosenValueKept | src/tui/config.py:420-592 | a valid value that is pinned or was not an old default survives |
| ConfigLaws.OldDefaultReplaced | src/tui/config.py:464-578 | an unpinned old default gives way to the new one |
| ConfigLaws.ChosenProfileValueKept | src/tui/config.py:472-482 | the same inside profiles |
| ConfigLaws.ExtrasKept | src/tui/config.py:420-421 | unknown keys pass through |
| ConfigLaws.LoadSaveLoad | src/tui/config.py:678-679 | loading what was saved from a loaded configuration gives it back, and never raises |
| ConfigFields.ShippedIsSound | src/tui/config.py:157-201 | every shipped default passes its own field's check |
| ConfigFields.LegsMatchDefaults | src/tui/config.py:486-578 | what a leg writes is the field's shipped default |

## Left out

- Floating-point rounding, and infinities: samples, pitches and rates are reals, NaN is a case of its own in pitch tracks, and sqrt, the fades and log/exp are known by their algebraic laws.
- Zero crossfade, zero history and a zero coarse target length: the slices of the last 0 samples mean something else in Python; they are excluded by precondition.
- Partial-frame reads of the helper's stdin, null or data-less PipeWire buffers, the `buffers_filled` counter, and the end of the push loop, which only backs off while no callback consumes.
- InferenceProtocol, SwapQueue and Lifecycle step states as values, because steps of different threads and processes interleave; assignment in place within a step shows only in `SwapBoard.Board` and `Lifecycle.Engine`.
- InferenceProtocol.BlocksAreCorrect: does not say which voice computed a block nor pair swap replies with swaps; a restarted child comes up with the start-time configuration and the code does not track this.
- InferenceProtocol: a pipe breaks only when the child's end is closed, parent death is not modelled beyond the child's exit, stop tears the generation down in one step, and buffers hold 16384 and 32768 floats.
- ModelSwap: the subprocess branch of a swap, the wait for the writer queue, the foundation sessions and warm-up chunks, configuration updates at chunk boundaries, and a filter that would finalise a stream in a flush that raises.
- PitchCarry.CarryStaysTrue: only for windows that repeat nothing; `PitchWindows.CarryStaysTrueExactly` and `PitchWindows.CarryAtIs` are about those that do.
- PitchCarry.ChunksAgree: only for windows that repeat nothing; the engine's repeat the input history, and `PitchWindows.WindowsAgree` is the statement about those.
- PitchWindows: the extractor is assumed to give a frame the same pitch in every window that covers it, so that windows are stretches of one track.
- Lifecycle: thread creation is assumed to succeed, and the signal handlers, the clock lock and the statistics are not modelled.
- Lifecycle.CollectorRestored: periodic collections during a run are not modelled.
- SwapQueue: the preloader thread, which only warms the session pool, and calls of `_maybe_swap_model` from outside the loop.
- SessionPool: session construction itself; a build is any result for the key, or a failure.
- SessionPool.ContentsAreMostRecent: a request whose build fails counts as no use.
- TreeMerge: a link's target is fixed and not affected by the move, renames across file systems succeed as one step, and the log lines are not modelled.
- Config: the first-run file, malformed or unreadable files, console messages (Python refuses to print or save an integer of more than 4300 digits, which only a hexadecimal, octal or binary literal can put into a document), the atomic write, and sorting of the pinned names, which are saved in some fixed order.
- Resampling, inference, playback processes, the TUI, the CLI and the control socket as such, and everything measured in wall-clock time.
