# Agent Speak: verified models of its stateful components

Agent Speak is a speech gateway: audio is captured in the browser, cut into
utterances, transcribed and corrected by models that share one GPU, and
shown beside an animated avatar. This project models the parts of it whose
correctness depends on state carried from call to call, and proves what
they promise. `dafny verify dfyconfig.toml` checks everything.

Each component is a class with the fields and methods of the original,
proved against a specification function or relation on values, and a set
of lemmas about that specification over every run.

- **Sprite clean-up** (`PixelGrid`, `AvatarImages`, `LargestComponent`,
  `ImageMeaning`): border flood fill and largest-component search over pixel
  arrays, specified by 4-connected reachability.
- **Guarded correction** (`EditDistance`, `EditMoves`, `TextGuard`,
  `TextMoves`): the two-row edit distance, specified by minimality over all
  edit scripts, and the guard that decides whether a model's rewrite
  replaces the recognised text, with the rewrites by which text moves from
  one row to the other.
- **Re-chunking** (`Blocks`, `PcmCapture`, `SileroVad`): fixed-size blocks
  of an arbitrarily split stream.
- **Realtime engine** (`EndpointDetector`, `EndpointRuns`, `EndpointSlices`,
  `EndpointTimes`, `RealtimeQueue`, `TranscriptLedger`,
  `RealtimeCoordinator`, and the modules `Realtime...` about it): the
  utterance detector, told from the frames heard, the priority queues, the transcript ledger, and the coordinator as a step system over
  arbitrary interleavings of clients, readers, closing streams, broker
  evictions and worker loops that may end by an exception or wait at a full
  event queue. `RealtimeAccounting` counts the work, `RealtimeResults` says
  when corrections are kept and loops end, `RealtimeEvents` when loops hang,
  `RealtimeNeeds`, `RealtimeClosing`, `RealtimeWinding` and
  `RealtimeServing` when a stream can become idle, `RealtimeRuns` reaches the
  bad ends, `RealtimeGenerations` orders partials, `RealtimeAudio` follows the
  audio of every job, `RealtimeWords` its text, and `RealtimeTexts` traces
  every row to its origin.
- **Event fan-out** (`SessionBroker`, `SessionRuns`, `SessionTurns`): bounded
  histories and drop-oldest queues, compared with the full event log.
- **Model residency** (`ModelManager`, `ModelLeases`, `ModelOutcomes`):
  activation with rollback under faults at any call, and the lease that pins
  the model.
- **Worker orchestration** (`ResourceTypes`, `ResourceSupervisor`,
  `ResourceRuns`): stop, start and rollback of GPU workers.
- **Avatar clips** (`ClipScheduler`, `ClipRuns`, `ClipTimes`): loops that are
  never cut, and moves that keep the frame rate.

## Where the code does less than its documentation suggests

- The repository's README.md, line 61, says older sentences lock. A row is
  locked only when a later sentence's revision rewrites it or the stream is
  finalized (`StepLocksIff`), so a sentence followed by two others without
  that revision stays open until the end (`OlderRowLocksIff`).
- If the final text of an utterance never arrives after a partial opened
  its row, no later utterance is accepted (`LostFinalBlocksTheLedger`), and
  the next final ends the shared recognition loop for every stream
  (`LostFinalEndsTheLoop`). The loop also ends when the broker has evicted
  the session of the result in the meantime, which it may, since a realtime
  stream does not subscribe to the broker (`EvictionEndsTheLoop`), and when
  the text queue is closed; `FinalResultStopsTheLoop`,
  `FailedResultStopsTheLoop` and `LoopsStopExactly` give the exact conditions.
- Finals overtake partials, so a partial of the same utterance can come back
  after its final. It then replaces the final text in the row
  (`LatePartialReplacesFinalIff`).
- A client that stops reading lets its bounded event queue fill. After it
  has disconnected, a worker with an event for that queue waits for ever, and
  its loop serves no stream again (`HangingLoopNeverMoves`,
  `UnreadEventsHangTheLoop`); short of that the loop can get on
  (`LoopMovesOnIff`). No stream with work queued at a loop that hangs or has
  ended becomes idle again (`AbandonedStreamIsNeverIdle`).
- A closed stream does not always become idle. It can exactly when, at the
  close, none of its work is queued, the close itself queues no running
  utterance, no accepted final is about to queue its correction, and a reader
  remains or the event queue has room for what its jobs in flight must still
  put (`ClosedStreamDrainsIff`). A final still in flight loses the stream when
  its correction would be queued (`FinalInFlightIsLostIff`); without work that
  leads to more, a stream with a reader or enough room stays able to drain
  (`WindingDownNeverStrands`). A registered stream drains unless an ended loop
  has work of it (`RegisteredStreamDrainsIff`).
- Scoring 20 ms frames against 512-sample windows leaves frames that score
  zero although speech continues: all those with 320 times their index below
  192 modulo 512 (`FrameIsScoredIff`, `UnscoredFrameIsSilent`).
- The guard compares the two sentences joined by a newline, and a reply may
  hold newlines of its own. Both rows are safe from every reply within the
  ratio exactly when neither sentence holds a newline and the ratio allows no
  edit in the joined text and one more character (`RowsAreSafeIff`). A newline
  inside a sentence lets text move at no cost (`TextMovesFreelyIff`,
  `FreeMovesAreAccepted`); otherwise one edit is enough to move a whole
  sentence or any part of one (`SomeTextMovesIff`, `CutAcceptedIff`), and the
  default ratio allows that for every pair with any text
  (`DefaultRatioAllowsOneEdit`). Two edits move text as it stands, over a
  blank or without one (`WordCrossesRowsIff`, `NewlineMovesIff`). A lost
  protected token still refuses each of these.
- Selecting the playing state does not cancel a pending switch when the
  playing state is unavailable (`ReselectingCancels`), and withdrawing a
  state does not withdraw its pending selection
  (`WithdrawnSelectionStillPlays`).

An extension of the silence candidate, which the same line of that README
mentions, changes no action: an unfinished candidate lasts until the hard
endpoint with or without it (`ExtensionsChangeNothing`).

## Environment

The lifecycle adapter and the inference runtime are classes whose methods
choose their outcome freely. For the adapter: any call may raise; readiness
changes only through start and stop; a start becomes visible within the
polling bound or never, and one that raised, timed out or whose polling
raised never does; a stop that raises may or may not have stopped. The
exclusivity result depends on this, because a rollback stops only workers
that report ready. For the runtime: creating, warming, closing and
inference may each raise, and a close that raises still releases.

## Model

| member | source | states |
|---|---|---|
| `PixelGrid.SameComponent` | AI_Avatar/tools/avatar_assets/images.py:62-86 | pixels joined by a 4-connected path have the same component, so components partition the foreground |
| `PixelGrid.ComponentOfComponent` | AI_Avatar/tools/avatar_assets/images.py:62-86 | inside one component alone, the component of any pixel is still that whole component |
| `PixelGrid.AllNeighbors` | AI_Avatar/tools/avatar_assets/images.py:51-59 | the generated neighbours are exactly the in-bounds pixels one step away |
| `AvatarImages.BorderQueue` | AI_Avatar/tools/avatar_assets/images.py:30-40 | the initial queue holds exactly the candidate pixels on the border |
| `AvatarImages.FloodMarks` | AI_Avatar/tools/avatar_assets/images.py:41-46 | marking the head of the queue and appending its neighbours keeps every marked pixel joined to the border and every unexplored one queued |
| `AvatarImages.FloodEnds` | AI_Avatar/tools/avatar_assets/images.py:41-46 | when the queue is empty, the marked pixels are exactly the candidates joined to the border |
| `AvatarImages.FloodFromBorder` | AI_Avatar/tools/avatar_assets/images.py:28-46 | marks exactly the candidates joined to the border by a 4-connected candidate path; ends although pixels are queued repeatedly, by unmarked candidates and then queue length |
| `AvatarImages.RemoveBorderBackground` | AI_Avatar/tools/avatar_assets/images.py:17-48 | alpha is cleared on exactly those pixels and nothing else changes; a negative tolerance and a one-sided empty image fail |
| `LargestComponent.FirstLargestUnique` | AI_Avatar/tools/avatar_assets/images.py:67-86 | at most one pixel set is the first of the largest components in row-major order |
| `LargestComponent.KeepingTwiceIsKeepingOnce` | AI_Avatar/tools/avatar_assets/images.py:62-92 | applying the operation twice equals applying it once |
| `LargestComponent.Explore` | AI_Avatar/tools/avatar_assets/images.py:71-83 | breadth-first exploration returns the component of its seed, each pixel once, and marks exactly that as visited |
| `LargestComponent.NextComponentIsNew` | AI_Avatar/tools/avatar_assets/images.py:67-86 | the first unvisited foreground pixel in row-major order belongs to a component not seen before, of which it is the first pixel |
| `LargestComponent.FindLargest` | AI_Avatar/tools/avatar_assets/images.py:67-86 | finds the first of the largest components, and nothing exactly when there is no foreground |
| `LargestComponent.RetainLargestComponent` | AI_Avatar/tools/avatar_assets/images.py:62-92 | keeps exactly one 4-connected component of the foreground, no component is larger, ties go to the first in row-major order; fails when there is no foreground |
| `ImageMeaning.CandidateIff` | AI_Avatar/tools/avatar_assets/images.py:24-29 | a background candidate is bright in every channel and nearly grey, both by the tolerance |
| `ImageMeaning.BorderIff` | AI_Avatar/tools/avatar_assets/images.py:32-40 | the border is where a pixel has fewer than four neighbours in the image |
| `ImageMeaning.FloodedIsLeast` | AI_Avatar/tools/avatar_assets/images.py:30-46 | the cleared pixels are the least set of candidates that holds those on the border and, with each, its neighbours |
| `ImageMeaning.BackgroundIsCleared` | AI_Avatar/tools/avatar_assets/images.py:47-48 | colours stay, and alpha becomes zero exactly at those pixels |
| `ImageMeaning.ToleranceClearsMore` | AI_Avatar/tools/avatar_assets/images.py:24-29 | a larger tolerance clears at least the same pixels |
| `ImageMeaning.RemovingTwiceIsRemovingOnce` | AI_Avatar/tools/avatar_assets/images.py:17-48 | removing the background twice equals removing it once |
| `ImageMeaning.OnlyKeptIsShown` | AI_Avatar/tools/avatar_assets/images.py:87-92 | colours stay, and every pixel outside the kept component becomes transparent |
| `EditDistance.EditNear` | src/agent_speak/text_inference.py:222-239 | one insertion, deletion or substitution changes the distance to any string by at most one |
| `EditDistance.ScriptIsLongEnough` | src/agent_speak/text_inference.py:222-239 | no script that turns one string into the other is shorter than the table says |
| `EditDistance.BestScript` | src/agent_speak/text_inference.py:222-239 | some script has exactly that length |
| `EditDistance.DistanceIsLeastScript` | src/agent_speak/text_inference.py:222-239 | the recurrence is the least length of any edit script, for all strings |
| `EditDistance.DistanceSymmetric` | src/agent_speak/text_inference.py:222-239 | the distance is symmetric |
| `EditDistance.DistanceTriangle` | src/agent_speak/text_inference.py:222-239 | the distance obeys the triangle inequality |
| `EditDistance.DistanceZeroIffEqual` | src/agent_speak/text_inference.py:222-239 | the distance is zero exactly for equal strings |
| `EditDistance.DistanceCoversLengths` | src/agent_speak/text_inference.py:222-239 | the distance lies between the difference of the lengths and the longer length |
| `EditDistance.ExchangeCostsTwo` | src/agent_speak/text_inference.py:222-239 | exchanging two different characters, wherever they stand, costs exactly two edits |
| `EditMoves.MovingCostsTwo` | src/agent_speak/text_inference.py:222-239 | moving a character over a text that holds any other one costs exactly two edits |
| `EditDistance.NextCellExtendsRow` | src/agent_speak/text_inference.py:229-238 | the entry the inner loop appends continues a row of true distances |
| `EditDistance.LastCell` | src/agent_speak/text_inference.py:227-239 | the last cell of the two-row loop is the minimum script length |
| `EditDistance.NormalizedEditDistance` | src/agent_speak/text_inference.py:222-239 | the returned ratio is the minimum script length over the longer length, zero for equal strings and one when one side is empty |
| `EditDistance.NormalizedComparesEdits` | src/agent_speak/text_inference.py:207-219 | comparing the ratio with a bound is comparing the number of edits with a whole-number allowance |
| `EditDistance.FewEditsKeepLength` | src/agent_speak/text_inference.py:207-219 | few edits bound how far the lengths can differ |
| `TextGuard.LlamaCppTextProvider.SafeRevision` | src/agent_speak/text_inference.py:207-219 | accepts exactly when every token occurs at least as often among the reply's protected tokens as among the source's, and the edits stay within the ratio |
| `TextGuard.LlamaCppTextProvider.LostTokenIsRefused` | src/agent_speak/text_inference.py:215-218 | a reply that drops one occurrence of a protected token is refused, however few edits it makes |
| `TextGuard.LlamaCppTextProvider.Revise` | src/agent_speak/text_inference.py:106-137 | a parsed reply is the result exactly when no token occurs less often in it and the edits fit, otherwise the source text is; only a transport failure reaches the caller |
| `TextGuard.LlamaCppTextProvider.AcceptedRewriteIsClose` | src/agent_speak/text_inference.py:207-219 | an accepted rewrite is reachable by few single-character edits and its length stays in proportion |
| `TextGuard.LlamaCppTextProvider.ZeroRatioAcceptsOnlyTheSource` | src/agent_speak/text_inference.py:207-219 | with ratio zero exactly the rewrites with the same joined text are accepted |
| `TextGuard.TextMovesFreelyIff` | src/agent_speak/text_inference.py:213-214 | two different replies share one joined text, so text can move between the rows at distance zero, exactly when one of the two source sentences holds a newline |
| `TextGuard.JoinedSplits` | src/agent_speak/text_inference.py:213-214 | two pairs with the same joined text are equal as soon as neither first sentence holds a newline, whatever the second ones hold |
| `TextGuard.FreeMovesAreAccepted` | src/agent_speak/text_inference.py:207-219 | the guard accepts every such move, at any ratio |
| `TextGuard.WordCrossesRowsIff` | src/agent_speak/text_inference.py:207-219 | the guard accepts that one character and the newline change places, so that the text between them crosses to the other row, in either direction, exactly when the ratio allows two edits and every protected token survives |
| `TextGuard.DefaultRatioAllowsCrossing` | src/agent_speak/text_inference.py:69 | at the default ratio two edits are allowed exactly when the sentences hold four characters besides the ones exchanged |
| `TextMoves.CutAcceptedIff` | src/agent_speak/text_inference.py:207-219 | for every place of the joined text, the guard accepts the two rows cut there exactly when no token is lost and the cut is at a newline, or replaces a character and one edit is allowed, or goes between two and one edit is allowed with one character more |
| `TextMoves.SomeTextMovesIff` | src/agent_speak/text_inference.py:213-219 | some cut within the ratio moves text between the rows exactly when a sentence holds a newline with text beyond it, or there is any text and the ratio allows one edit in the joined text and one more character |
| `TextMoves.JoinedTextIsSafeIff` | src/agent_speak/text_inference.py:207-239 | every reply within the ratio, however long, has the same joined text exactly when the ratio allows no edit in the joined text and one more character |
| `TextMoves.RowsAreSafeIff` | src/agent_speak/text_inference.py:213-219 | every reply within the ratio leaves both rows as they are exactly when neither sentence holds a newline and the ratio allows no edit in the joined text and one more character |
| `TextMoves.NewlineMovesIff` | src/agent_speak/text_inference.py:207-219 | the guard lets any text that is not all newlines move intact to the other row, in either direction, exactly when the ratio allows two edits and every protected token survives |
| `TextMoves.DefaultRatioAllowsOneEdit` | src/agent_speak/text_inference.py:69 | at the default ratio the one edit is allowed for every pair with any text |
| `Blocks.ChunksRebuild` | frontend/realtime/public/pcm-capture.worklet.js:10-17 | blocks followed by the remainder are the input, and the remainder is shorter than a block |
| `Blocks.ChunksUnique` | frontend/realtime/public/pcm-capture.worklet.js:10-17 | no other cutting into whole blocks and a shorter rest exists |
| `Blocks.RunCutsTheStream` | frontend/realtime/public/pcm-capture.worklet.js:7-31 | over any calls, all blocks emitted are the consecutive blocks of the concatenated input |
| `Blocks.SplittingIsInvisible` | frontend/realtime/public/pcm-capture.worklet.js:7-31 | how the input is split into calls changes neither the blocks nor the buffered rest |
| `PcmCapture.QuantiseNeverWraps` | frontend/realtime/public/pcm-capture.worklet.js:22-23 | every clamped sample quantises into the 16-bit range, so the typed array never wraps |
| `PcmCapture.ClampIsNearest` | frontend/realtime/public/pcm-capture.worklet.js:22 | a sample outside minus one to one becomes the nearest value inside, and no other changes |
| `PcmCapture.SourceIsInPlace` | frontend/realtime/public/pcm-capture.worklet.js:21 | output sample i takes the source sample at its own place in the chunk, which is never past the end |
| `PcmCapture.TruncateDropsTheFraction` | frontend/realtime/public/pcm-capture.worklet.js:22-23 | storing a product as an integer drops its fraction, symmetrically about zero |
| `PcmCapture.PeaksNext` | frontend/realtime/public/pcm-capture.worklet.js:24-25 | one more sample keeps every envelope bucket the maximum of the amplitudes seen in it |
| `PcmCapture.Encode` | frontend/realtime/public/pcm-capture.worklet.js:18-26 | 320 resampled 16-bit samples, and 32 envelope entries each the true peak of its ten samples |
| `PcmCapture.PcmCaptureProcessor.Process` | frontend/realtime/public/pcm-capture.worklet.js:7-31 | posts one envelope and one sample message per whole block of buffer plus input, in order, and keeps the remainder; a missing or empty channel changes nothing |
| `SileroVad.SileroFrameVAD.Score` | src/agent_speak/realtime_audio.py:96-106 | feeds the model exactly the 512-sample windows of buffer plus input, returns the last probability or zero, keeps the remainder |
| `SileroVad.SileroFrameVAD.Reset` | src/agent_speak/realtime_audio.py:108-111 | empties the buffer and restores the model's initial state |
| `SileroVad.DecodedFillsTheRange` | src/agent_speak/realtime_audio.py:96-98 | decoding scales 16-bit samples by 32768 into the range from minus one to below one |
| `SileroVad.ModelSeesTheStream` | src/agent_speak/realtime_audio.py:96-106 | the recurrent model meets the windows of the whole stream however it was framed |
| `SileroVad.FrameCompletesWindowIff` | src/agent_speak/realtime_audio.py:96-106 | a 20 ms frame completes a window exactly when 192 samples are buffered, never two, and leaves the sum modulo 512 |
| `SileroVad.FrameIsScoredIff` | src/agent_speak/realtime_audio.py:96-106 | in a stream of 20 ms frames, the frame after n others is scored by the model exactly when 320 n modulo 512 is at least 192 |
| `SileroVad.UnscoredFrameIsSilent` | src/agent_speak/realtime_audio.py:96-106 | the frames for which it is less score zero, whatever the model says |
| `SileroVad.ThreeShortFramesLeaveAGap` | src/agent_speak/realtime_audio.py:96-106 | so, from any buffer, one of any three consecutive frames scores zero |
| `EndpointDetector.UtteranceDetector.AcceptFrame` | src/agent_speak/realtime_endpoint.py:73-98 | one frame moves the detector's fields and returns the actions exactly as the state function says, for every configuration the validation accepts |
| `EndpointDetector.UtteranceDetector.AcceptBeforeSpeech` | src/agent_speak/realtime_endpoint.py:100-120 | the same for frames before an utterance: sliding pre-roll, minimum speech, start |
| `EndpointDetector.UtteranceDetector.ExtendEndpoint` | src/agent_speak/realtime_endpoint.py:122-126 | an extension is granted exactly while a candidate is open and only records a flag |
| `EndpointDetector.UtteranceDetector.FinalizeCandidate` | src/agent_speak/realtime_endpoint.py:128-131 | finishes the utterance exactly while a candidate is open |
| `EndpointDetector.UtteranceDetector.Reset` | src/agent_speak/realtime_endpoint.py:133-135 | drops the utterance and the pre-roll |
| `EndpointRuns.StepKeepsTimed` | src/agent_speak/realtime_endpoint.py:73-158 | every call keeps: candidate holds iff silence has reached the endpoint, silence is below the hard endpoint, duration equals frames times frame length and is below the limit |
| `EndpointRuns.TimersAgree` | src/agent_speak/realtime_endpoint.py:73-158 | hence in every run |
| `EndpointRuns.ExtensionsChangeNothing` | src/agent_speak/realtime_endpoint.py:122-126 | removing every extension from a run changes no action of it |
| `EndpointRuns.CutLosesNothing` | src/agent_speak/realtime_endpoint.py:73-149 | cutting an action log after every final loses nothing |
| `EndpointRuns.EveryUtteranceTraceIsWhole` | src/agent_speak/realtime_endpoint.py:73-149 | between resets the log is a list of whole traces started (candidate cancelled)* candidate? final with consecutive ids, then one unfinished trace; no action of another id inside |
| `EndpointSlices.PushedIsNewest` | src/agent_speak/realtime_endpoint.py:100-108 | the bounded pre-roll is the newest frames since the last boundary |
| `EndpointSlices.TriggeredIsFirst` | src/agent_speak/realtime_endpoint.py:104-112 | the frame that starts an utterance completes the first voiced run of the minimum length |
| `EndpointSlices.AdvanceKeeps` | src/agent_speak/realtime_endpoint.py:73-158 | every call keeps the utterance equal to a slice of the frames heard |
| `EndpointSlices.EveryFinalIsASlice` | src/agent_speak/realtime_endpoint.py:73-158 | in every run the finals are in-order, pairwise disjoint, contiguous slices of the input, each shorter than the larger of length limit and pre-roll plus one frame |
| `EndpointSlices.SliceHoldsTriggeringRun` | src/agent_speak/realtime_endpoint.py:100-120 | the slice holds the whole voiced run that triggered it exactly when the pre-roll has at least as many frames as the minimum speech, so always when it is at least as long |
| `EndpointTimes.QuietIsLongest` | src/agent_speak/realtime_endpoint.py:80-94 | the quiet run is the longest run of unvoiced frames at the end of what was heard |
| `EndpointTimes.StepAnswers` | src/agent_speak/realtime_endpoint.py:73-131 | every call answers exactly what the frames heard call for: a candidate opens with the frame that brings the quiet run to the endpoint, a voiced frame cancels it, the utterance ends with the frame that brings the quiet run to the hard endpoint or the audio to the longest duration, and starts with the frame that brings the voiced run to the minimum; each action carries the audio and silence of those frames |
| `EndpointTimes.EveryAnswerFollows` | src/agent_speak/realtime_endpoint.py:73-158 | in every run the silence counter is the quiet run in milliseconds, and every answer is that one |
| `RealtimeQueue.StoredReplacesInPlace` | src/agent_speak/realtime_queue.py:67-80 | a newer partial takes its utterance's slot at the original place; there is one slot per utterance and every other slot stays |
| `RealtimeQueue.ASRScheduler.EnqueueFinal` | src/agent_speak/realtime_queue.py:57-65 | appends in order; wrong mode, closed and full are refused without change |
| `RealtimeQueue.ASRScheduler.EnqueuePartial` | src/agent_speak/realtime_queue.py:67-80 | replaces or appends, reports whether the queue grew; refused without change when full and new, closed or of the wrong mode |
| `RealtimeQueue.ASRScheduler.Dequeue` | src/agent_speak/realtime_queue.py:82-90 | finals first, then the oldest slot, then waits, or reports drained once closed |
| `RealtimeQueue.ASRScheduler.Close` | src/agent_speak/realtime_queue.py:92-95 | keeps what is queued |
| `RealtimeQueue.TextScheduler.EnqueueEndpoint` | src/agent_speak/realtime_queue.py:118-126 | the endpoint lane of the text queue |
| `RealtimeQueue.TextScheduler.EnqueueCorrection` | src/agent_speak/realtime_queue.py:128-136 | the correction lane of the text queue |
| `RealtimeQueue.TextScheduler.Dequeue` | src/agent_speak/realtime_queue.py:138-145 | endpoints before corrections |
| `RealtimeQueue.ServeKeeps` | src/agent_speak/realtime_queue.py:57-90 | every operation conserves finals in order and keeps each slot the newest partial of its utterance |
| `RealtimeQueue.RunConserves` | src/agent_speak/realtime_queue.py:57-95 | in every run, finals delivered followed by finals queued are the finals accepted, in order, within the bounds |
| `RealtimeQueue.FinalAcceptedIff` | src/agent_speak/realtime_queue.py:57-65 | a final is refused exactly for its mode, for a closed queue and for a full lane, in that order, and otherwise goes to the end |
| `RealtimeQueue.PartialAcceptedIff` | src/agent_speak/realtime_queue.py:67-80 | a partial of an utterance that already waits is never refused as too many |
| `RealtimeQueue.TextAcceptedIff` | src/agent_speak/realtime_queue.py:118-136 | the same for both lanes of the text queue |
| `RealtimeQueue.TakerFinds` | src/agent_speak/realtime_queue.py:82-90 | a taker waits at an empty open queue, ends at an empty closed one, and otherwise gets the head of the first lane that has one |
| `RealtimeQueue.FinalsGoFirst` | src/agent_speak/realtime_queue.py:82-90 | a partial is delivered only when no final waits, and it is the oldest slot |
| `RealtimeQueue.TextRunConserves` | src/agent_speak/realtime_queue.py:118-150 | in every run each text lane delivers what it accepted, in order, and a correction only while no endpoint question waits |
| `RealtimeQueue.CloseDrainsTheRest` | src/agent_speak/realtime_queue.py:82-103 | a closed queue accepts nothing and delivers exactly what remains before it reports drained |
| `TranscriptLedger.TranscriptLedger.Partial` | src/agent_speak/transcripts.py:35-46 | a partial opens the first row, replaces the open last row, or opens the next row; otherwise stale, nothing changed |
| `TranscriptLedger.TranscriptLedger.Final` | src/agent_speak/transcripts.py:48-59 | the same for a final text, which marks the row final |
| `TranscriptLedger.TranscriptLedger.Revise` | src/agent_speak/transcripts.py:61-77 | rewrites the last final row and at most the one before it, which is then locked; otherwise stale, nothing changed |
| `TranscriptLedger.TranscriptLedger.Finalize` | src/agent_speak/transcripts.py:79-80 | locks every row |
| `TranscriptLedger.StepIsKept` | src/agent_speak/transcripts.py:35-89 | every accepted or rejected call keeps distinct append-only ids, all rows but the last final, locked rows fixed, and text below the last two rows fixed |
| `TranscriptLedger.RunIsKept` | src/agent_speak/transcripts.py:35-89 | hence every run does |
| `TranscriptLedger.AcceptedTextIsShown` | src/agent_speak/transcripts.py:35-77 | an accepted text is the last row's, a revision also sets and locks the row before, and every other row keeps its text |
| `TranscriptLedger.SentenceIsServed` | src/agent_speak/transcripts.py:35-77 | every new sentence goes through: partials, final and one revision are accepted and shown in turn; the revision rewrites the sentence before it, locks that one, and is not accepted again |
| `TranscriptLedger.TextAcceptedIff` | src/agent_speak/transcripts.py:35-59 | a text is accepted exactly for the first sentence, for the last one while it is open, and for a new one after a final one |
| `TranscriptLedger.RevisionAcceptedIff` | src/agent_speak/transcripts.py:61-77 | a revision is accepted exactly for the last sentence once final, while it and the one before it are open |
| `TranscriptLedger.RewrittenAtMostOnce` | src/agent_speak/transcripts.py:61-77 | a row that is no longer the last is rewritten at most once and is then locked for good |
| `TranscriptLedger.NewUtteranceAccepted` | src/agent_speak/transcripts.py:35-59 | a new utterance is accepted exactly when there is no row or the last one is final |
| `TranscriptLedger.LostFinalBlocksTheLedger` | src/agent_speak/transcripts.py:35-77 | while the last row's final never arrives, no other utterance ever gets a row |
| `TranscriptLedger.FinalizedOpenRowIsTheEnd` | src/agent_speak/transcripts.py:79-80 | a ledger finalized with an open last row rejects everything for good |
| `TranscriptLedger.StepLocksIff` | src/agent_speak/transcripts.py:61-80 | after a call a row is locked exactly when it was, or the stream was finalized, or an accepted revision rewrote the row after it |
| `TranscriptLedger.OlderRowLocksIff` | src/agent_speak/transcripts.py:61-80 | a row with two rows after it is locked at the end of a run exactly when it was before or the run finalizes the stream |
| `TranscriptLedger.StablePrefix` | src/agent_speak/transcripts.py:11-17 | the returned prefix is the longest common prefix |
| `RealtimeCoordinator.RealtimeStream.NoteQueued` | src/agent_speak/realtime.py:621-623 | one more pending job, not idle |
| `RealtimeCoordinator.RealtimeStream.NoteDone` | src/agent_speak/realtime.py:625-628 | one pending job fewer, never below zero, idle at zero |
| `RealtimeCoordinator.RealtimeStream.NextPartial` | src/agent_speak/realtime.py:423-433 | partials of a stream are numbered consecutively and the newest number of each utterance is remembered |
| `RealtimeAccounting.NextKeepsAccounts` | src/agent_speak/realtime.py:200-284 | every step of any client, reader or worker, of the broker or of a closing stream, raising ones included, keeps each stream's pending counter equal to its queue entries plus its jobs in flight plus its jobs skipped as unregistered |
| `RealtimeAccounting.RunKeepsAccounts` | src/agent_speak/realtime.py:200-284 | hence every interleaving does |
| `RealtimeAccounting.ClampNeverActs` | src/agent_speak/realtime.py:625-628 | whenever a worker reports a job done the counter is at least one, so the clamp at zero never acts |
| `RealtimeAccounting.AsrResultKeeps` | src/agent_speak/realtime.py:494-542 | accepting a transcription result, failed or not, refused by the ledger or not, keeps the accounts |
| `RealtimeAccounting.AsrToldKeeps` | src/agent_speak/realtime.py:240-243 | telling an event keeps the accounts, also when the broker raises and the loop ends through its `finally` |
| `RealtimeAccounting.CorrectionQueuedKeeps` | src/agent_speak/realtime.py:473-492 | queueing the correction of a final, its refusal and the exception of a closed queue keep the accounts |
| `RealtimeAccounting.EndpointAnsweredKeeps` | src/agent_speak/realtime.py:544-568 | an endpoint answer that finishes the utterance and queues its final, or raises, keeps the accounts |
| `RealtimeAccounting.RevisionAnsweredKeeps` | src/agent_speak/realtime.py:570-596 | accepting, refusing or failing a revision keeps the accounts |
| `RealtimeAccounting.ClosedKeeps` | src/agent_speak/realtime.py:169-172 | a close, which removes the stream first and then may queue its last utterance, keeps the accounts |
| `RealtimeAudio.StepConservesClips` | src/agent_speak/realtime.py:450-471 | one step adds exactly one final, with the session, utterance and audio that were finished, when the final lane is open and has room, and none otherwise; a taken one is the head |
| `RealtimeAudio.RunConservesClips` | src/agent_speak/realtime.py:200-205 | in every interleaving the recognition worker takes the finished utterances in order, each with the audio it was finished with |
| `RealtimeAudio.PartialIsStored` | src/agent_speak/realtime.py:423-448 | a partial that the lane takes is what waits for its utterance, with this audio, and every other slot keeps its own |
| `RealtimeAudio.EveryJobCarriesOfferedAudio` | src/agent_speak/realtime.py:423-471 | in every run whatever is queued or transcribed is the audio of a step that offered it for that session and utterance |
| `RealtimeAudio.TakenIsTranscribed` | src/agent_speak/realtime.py:200-212 | the worker transcribes the head of the lanes, finals first, when its stream is registered, skips it otherwise, and ends at a closed empty queue |
| `RealtimeWords.FinalTextIsShown` | src/agent_speak/realtime.py:519-524 | a recognised final is shown as its utterance's final text and changes no other row, unless the ledger refuses it and the loop ends |
| `RealtimeWords.PartialTextIsShown` | src/agent_speak/realtime.py:509-517 | a recognised partial is shown exactly when it is the newest of its utterance and the ledger takes it |
| `RealtimeWords.LatePartialReplacesFinalIff` | src/agent_speak/realtime.py:509-517 | a recognised partial replaces a final text exactly when it is the newest of that utterance and the row is the last and open |
| `RealtimeWords.CorrectionAsksAboutTheRows` | src/agent_speak/realtime.py:525-526 | a final is corrected together with the text of the row before its own, or with nothing |
| `RealtimeWords.CorrectionIsQueued` | src/agent_speak/realtime.py:532-542 | what is queued is that correction of that utterance, at the end of the lane |
| `RealtimeWords.RevisionIsShown` | src/agent_speak/realtime.py:581-596 | a revision in time sets both rows it was asked about, a late or failed one none, and no other row changes |
| `RealtimeWords.UnchangedCorrectionKeepsTexts` | src/agent_speak/realtime.py:263-268 | from the accepted final to the answer, a correction that returns its texts leaves every text of the transcript as it was |
| `RealtimeWords.QuestionShowsTheRow` | src/agent_speak/realtime.py:404-416 | the question whether an utterance is complete shows the text of its row, or nothing when the last row is another's |
| `RealtimeWords.BlankQuestionNeverFinishes` | src/agent_speak/realtime.py:550-556 | an answer about a blank text never finishes the utterance and queues nothing |
| `RealtimeWords.AnswerLeaves` | src/agent_speak/realtime.py:557-568 | an extension leaves a note for the client, a completion a note or a warning about a full lane or the end of the loop, any other answer nothing |
| `RealtimeWords.StopBeginsOnce` | src/agent_speak/realtime.py:358-370 | a stop begins once, and fails at once exactly when its last utterance meets a closed queue, or a full one while the broker does not know the session |
| `RealtimeWords.StopEndsLocked` | src/agent_speak/realtime.py:370-377 | a stop ends by locking every row and changing no text, and only a stopped stream starts again |
| `RealtimeWords.OpenAndClose` | src/agent_speak/realtime.py:112-172 | a session opens its stream once, empty and registered; closing unregisters it and stops it |
| `RealtimeResults.PendingIsExact` | src/agent_speak/realtime.py:200-284 | from the start, in every interleaving |
| `RealtimeResults.IdleMeansDrained` | src/agent_speak/realtime.py:621-628 | a registered stream is idle exactly when nothing of it is queued or in flight |
| `RealtimeResults.FinalResultIsInHand` | src/agent_speak/realtime.py:494-542 | a final result leaves its correction in hand, or ends the loop, and the stream was not idle |
| `RealtimeResults.CorrectionStays` | src/agent_speak/realtime.py:473-542 | the correction stays in hand through every step except its completion, a refusal by the full queue, a skip as unregistered, and the exceptions of the broker and of a closed queue |
| `RealtimeResults.NeverIdleBeforeCorrection` | src/agent_speak/realtime.py:473-542 | from the acceptance of a final until its correction leaves, the stream is never idle |
| `RealtimeResults.FinalResultStopsTheLoop` | src/agent_speak/realtime.py:519-542 | a final text, undisturbed, ends the recognition loop exactly when the ledger refuses it, or the broker no longer knows the session and one event fits, or the text queue is closed and two events fit; with less room the loop waits |
| `RealtimeResults.FailedResultStopsTheLoop` | src/agent_speak/realtime.py:500-508 | a failed transcription, undisturbed, ends the loop exactly when the broker no longer knows the session and one event fits |
| `RealtimeResults.LoopsStopExactly` | src/agent_speak/realtime.py:200-284 | in any interleaving each loop ends at the steps that raise, and where it asks a closed and drained queue for work, and at no others |
| `RealtimeResults.StoppedLoopStaysStopped` | src/agent_speak/realtime.py:200-284 | a loop that ended never resumes |
| `RealtimeEvents.RunFits` | src/agent_speak/realtime.py:316-318 | in every run no event queue holds more than its capacity |
| `RealtimeEvents.ClientEventIsKept` | src/agent_speak/realtime.py:630-648 | an event of a client goes into the queue exactly when there is room and waits otherwise; an operation gives one exactly for itself, for a job it queued, or for a lane that is full |
| `RealtimeEvents.EventStepMoves` | src/agent_speak/realtime.py:383-388 | what waits is delivered exactly when there is room, given up, or read by a reader, and readers come to registered streams only |
| `RealtimeEvents.WorkerEventIsPut` | src/agent_speak/realtime.py:641-648 | a worker's event goes into the queue of its stream before anything else comes of it |
| `RealtimeEvents.HangingLoopNeverMoves` | src/agent_speak/realtime.py:641-648 | a worker with an event for a full event queue, of a stream that nobody reads and that left the registry, stays there whatever happens, so its loop serves no stream again |
| `RealtimeEvents.LoopMovesOnIff` | src/agent_speak/realtime.py:641-648 | a recognition loop with an event to put can get on exactly when it does not wait at such a queue |
| `RealtimeEvents.AbandonedStreamIsNeverIdle` | src/agent_speak/realtime.py:200-284 | once a loop has ended or hangs, no stream with work in its queue becomes idle again, registered or not, whatever happens |
| `RealtimeServing.RegisteredStreamDrainsIff` | src/agent_speak/realtime.py:358-369 | while no worker is at a job, a registered stream that the broker knows can become idle exactly when no ended loop has work of it queued |
| `RealtimeNeeds.NextNeeds` | src/agent_speak/realtime.py:494-596 | for a stream nobody reads, the events waiting and the fewest its jobs in flight must still put never get fewer together, whatever anyone but its own clients and stop does, unless its correction is queued |
| `RealtimeClosing.StrandedStreamIsNeverIdle` | src/agent_speak/realtime.py:169-181 | a stream that left the registry with work queued or skipped never becomes idle, whatever follows |
| `RealtimeClosing.CanDrainIff` | src/agent_speak/realtime.py:200-284 | left to the workers and readers, a stream that left the registry can still become idle exactly when nothing of it is queued or was skipped, no accepted final is about to queue its correction, and a reader remains or the events its jobs in flight must still put fit |
| `RealtimeClosing.BecomesIdleIff` | src/agent_speak/realtime.py:174-184 | when the broker may evict its session and the coordinator close its queues as well, it can become idle exactly when nothing of it is queued or was skipped and a reader remains or the fewest events left after both fit |
| `RealtimeClosing.CloseStrandsIff` | src/agent_speak/realtime.py:358-369 | the close itself strands the stream exactly when work of it is queued or its running utterance is queued by the close; it puts at most one event |
| `RealtimeClosing.ClosedStreamDrainsIff` | src/agent_speak/realtime.py:169-172 | a closed stream can become idle exactly when, at the close, nothing of it is queued, the close queues no running utterance, no accepted final is about to queue its correction, and a reader remains or what its jobs in flight must still put fits after the close's own warning |
| `RealtimeClosing.FinalInFlightIsLostIff` | src/agent_speak/realtime.py:519-542 | a final in flight at the close that succeeds is bound to strand the stream exactly when its correction would be queued |
| `RealtimeWinding.WindingDownNeverStrands` | src/agent_speak/realtime.py:374-384 | a closed stream whose work in flight cannot lead to more winds down in every run in which no client gives it work, and can become idle from every point of it if a reader stays or everything that may still come fits |
| `RealtimeRuns.LostFinalEndsTheLoop` | src/agent_speak/realtime.py:200-243 | a reachable end of the loop by a refusal: a partial, its failed final, the next utterance's final |
| `RealtimeRuns.EvictionEndsTheLoop` | src/agent_speak/realtime.py:519-524 | for all limits with a broker and every session, a reachable end of the loop by an eviction, after the ledger took the final |
| `RealtimeRuns.UnreadEventsHangTheLoop` | src/agent_speak/realtime.py:641-648 | for all limits and every session, a reachable hang: the client stops reading, its event queue fills, it disconnects with one final in flight and nothing queued |
| `RealtimeTexts.EveryRowHasAnOrigin` | src/agent_speak/realtime.py:494-596 | in every run in which corrections answer as the guarded provider does, each row's text was recognised in the run or is one half of a guarded rewrite of the previous row's text and a recognised text |
| `RealtimeGenerations.RunOrdered` | src/agent_speak/realtime.py:423-448 | every step keeps queued and in-flight partials newer than everything offered to the ledger for their utterance |
| `RealtimeGenerations.PartialIsNumbered` | src/agent_speak/realtime.py:423-433 | every partial uses up the next number of its stream, refused or not, and makes older ones of its utterance stale |
| `RealtimeGenerations.PartialsReachLedgerInOrder` | src/agent_speak/realtime.py:509-517 | in every run the partials offered to the ledger for one utterance have strictly increasing generations |
| `SessionBroker.FirstIdle` | src/agent_speak/sessions.py:50-57 | the oldest session without a turn in progress and without subscribers |
| `SessionBroker.SessionBroker.CreateSession` | src/agent_speak/sessions.py:33-81 | evicts the oldest idle session when at capacity or fails unchanged, and emits the creation event |
| `SessionBroker.SessionBroker.FanOut` | src/agent_speak/sessions.py:135-138 | every subscriber queue gets the event and a full one loses its oldest first, in any order of subscribers |
| `SessionBroker.SessionBroker.Publish` | src/agent_speak/sessions.py:111-139 | numbers the event, appends it to the trimmed history, and delivers it |
| `SessionBroker.SessionBroker.AdmitTurn` | src/agent_speak/sessions.py:93-104 | one turn at a time per session |
| `SessionBroker.SessionBroker.LeaveTurn` | src/agent_speak/sessions.py:105-109 | ends the turn, also of a session that is gone |
| `SessionBroker.SessionBroker.OpenStream` | src/agent_speak/sessions.py:141-146 | snapshot of the history and registration in one step |
| `SessionBroker.SessionBroker.ReadStream` | src/agent_speak/sessions.py:147-151 | history first, then the live queue |
| `SessionBroker.SessionBroker.CloseStream` | src/agent_speak/sessions.py:152-154 | unregisters the queue |
| `SessionBroker.CreateKeeps` | src/agent_speak/sessions.py:48-81 | session count within capacity, insertion order and subscriber sets stay consistent |
| `SessionRuns.TrimKeepsNewest` | src/agent_speak/sessions.py:131-133 | the trimmed history is the newest max_events of the log, for every max_events including zero and negative |
| `SessionRuns.DeliveryKeepsNewest` | src/agent_speak/sessions.py:135-138 | a drop-oldest queue stays the newest min(capacity, unread) events, for every capacity including unbounded |
| `SessionRuns.ShownInOrder` | src/agent_speak/sessions.py:141-151 | everything read or still to be read comes from the log in strictly increasing sequence |
| `SessionRuns.NextReadSkipsOnlyOverflow` | src/agent_speak/sessions.py:135-151 | a live read continues right after the last one exactly when the unread events fit the queue, and the queue ends with the newest event |
| `SessionRuns.CompleteIffNothingDropped` | src/agent_speak/sessions.py:135-151 | reads, snapshot and queue are the whole log from the snapshot on exactly when no event was dropped |
| `SessionRuns.StepAgrees` | src/agent_speak/sessions.py:33-154 | every operation keeps every history and every stream in agreement with the full event logs |
| `SessionRuns.RunAgrees` | src/agent_speak/sessions.py:33-154 | hence every run does |
| `SessionRuns.EveryRun` | src/agent_speak/sessions.py:33-154 | for a new broker and any run: capacity bound, histories are log suffixes with consecutive numbers, streams in order and complete iff nothing was dropped |
| `SessionRuns.BusySessionsStay` | src/agent_speak/sessions.py:48-70 | no operation removes a session that has a turn or a subscriber |
| `SessionRuns.CreateEvictsOldestIdle` | src/agent_speak/sessions.py:48-70 | creation fails exactly when full of busy sessions, changes nothing then, and otherwise removes at most the oldest idle session |
| `SessionTurns.TurnsAreBegunAndEnded` | src/agent_speak/sessions.py:93-109 | in every run a turn is in progress exactly when the session's last such call began one |
| `SessionTurns.TurnRefusedIff` | src/agent_speak/sessions.py:93-104 | after every run a turn is refused exactly for an unknown session and for one whose turn has not ended |
| `SessionTurns.SubscriptionStartsWithHistory` | src/agent_speak/sessions.py:141-146 | a known session can always be subscribed to, and the new stream starts with its retained history and nothing live |
| `SessionTurns.ReadYieldsTheNext` | src/agent_speak/sessions.py:147-151 | a read waits exactly when nothing is unread, and otherwise yields the first unread event and leaves the others |
| `ModelManager.ASRModelManager.Activate` | src/agent_speak/asr_model_manager.py:144-248 | for faults at any call: at most one live provider throughout, polls never report ready early, success exactly when nothing raised, rollback failure exactly when the previous model could not be loaded and warmed; pollers see the states in the source's order, each naming the active and requested model and the error it does; ends on the requested model, the previous one, or none |
| `ModelManager.ASRModelManager.Replace` | src/agent_speak/asr_model_manager.py:155-186 | the old provider is released before the new one is created, and a provider that fails to warm is released |
| `ModelManager.ASRModelManager.Recover` | src/agent_speak/asr_model_manager.py:187-248 | the exception handler: fails with nothing resident when nothing was, and otherwise rolls back |
| `ModelManager.ASRModelManager.Rollback` | src/agent_speak/asr_model_manager.py:212-248 | restores the previous model with a new warmed provider or ends empty |
| `ModelManager.ASRModelManager.Acquire` | src/agent_speak/asr_model_manager.py:250-264 | granted exactly to the holder or on a free lease, for the ready active model |
| `ModelManager.ASRModelManager.Release` | src/agent_speak/asr_model_manager.py:266-270 | only the holder's release frees the lease |
| `ModelManager.ASRModelManager.Transcribe` | src/agent_speak/asr_model_manager.py:272-295 | infers only for the lease holder, or without a session when there is no lease, on the provider of the active model; succeeds with exactly what that provider answered; changes nothing |
| `ModelManager.TranscribeReturnsTheAnswer` | src/agent_speak/asr_model_manager.py:295 | a transcription is t exactly when the provider answered t, and an inference failure exactly when the provider raised |
| `ModelOutcomes.AlwaysResidentOrVacant` | src/agent_speak/asr_model_manager.py:144-295 | after every call of every run there is one live warmed provider, published as ready with its model and device, or none at all |
| `ModelOutcomes.ActivationRefusedIff` | src/agent_speak/asr_model_manager.py:144-150 | an activation is refused exactly for an unknown model and for another model than the leased one, and then does nothing |
| `ModelOutcomes.ActivationEnds` | src/agent_speak/asr_model_manager.py:150-248 | an admitted activation ends on the requested model, on the previous one or on none, with the error that says which |
| `ModelOutcomes.PollsTellTheSwitch` | src/agent_speak/asr_model_manager.py:155-248 | pollers see unloading, loading and warming as far as the switch got, and then how it ended, each with its models and error |
| `ModelOutcomes.LeaseGrantedIff` | src/agent_speak/asr_model_manager.py:250-264 | a lease is granted exactly to its holder, or on a free lease, for the resident model; each refusal has its reason |
| `ModelOutcomes.InferenceAllowedIff` | src/agent_speak/asr_model_manager.py:272-295 | inference is done exactly for the holder, or for nobody on a free lease, on the resident model; each refusal has its reason |
| `ModelLeases.RunIsConsistent` | src/agent_speak/asr_model_manager.py:144-295 | whenever the lock is free, ready means one warmed live provider of the active model, otherwise none, over every run |
| `ModelLeases.ServiceSurvives` | src/agent_speak/asr_model_manager.py:187-248 | an activation leaves a model ready exactly when the previous one did not fail to reload, and says which model |
| `ModelLeases.LeasePins` | src/agent_speak/asr_model_manager.py:250-295 | until the holder releases, no call by anyone changes the ready state, the active model or the provider object; the holder's requests are answered with what that provider said, and nobody else's reach it |
| `ModelLeases.AcquiredModelStays` | src/agent_speak/asr_model_manager.py:250-295 | the same from the granted acquisition on |
| `ModelLeases.OnlyTheOwnerReleases` | src/agent_speak/asr_model_manager.py:250-270 | a release frees the lease iff it is the holder's, and the next acquisition succeeds iff it was or is by the holder |
| `ResourceSupervisor.ResourceSupervisor.constructor` | src/agent_speak/resource_supervisor.py:1037-1062 | the profile is synthesis only if the synthesiser is ready and recognition is not, otherwise recognition; the desired set is that profile's plan, nothing counts as the last ready profile, and the statuses are what the adapter reports |
| `ResourceSupervisor.ResourceSupervisor.RequestOperation` | src/agent_speak/resource_supervisor.py:246-315 | returns the running operation, answers ready at once, or queues one thread with the previous snapshot |
| `ResourceSupervisor.ResourceSupervisor.ReconcileTo` | src/agent_speak/resource_supervisor.py:191-202 | the full pipeline needs an agent |
| `ResourceSupervisor.ResourceSupervisor.ResetWorkload` | src/agent_speak/resource_supervisor.py:204-231 | the workloads a reset wants under each policy |
| `ResourceSupervisor.ResourceSupervisor.SetPhase` | src/agent_speak/resource_supervisor.py:334-357 | publishes a later phase of the running operation, with its error, and changes nothing else |
| `ResourceSupervisor.ResourceSupervisor.SetWorkload` | src/agent_speak/resource_supervisor.py:359-386 | changes one status and keeps the snapshot valid |
| `ResourceSupervisor.ResourceSupervisor.AwaitReady` | src/agent_speak/resource_supervisor.py:455-462 | polling ends with the worker ready or, after the bound, with it not ready |
| `ResourceSupervisor.ResourceSupervisor.StopAll` | src/agent_speak/resource_supervisor.py:416-431 | stops exactly the chosen workers, one by one in stop order |
| `ResourceSupervisor.ResourceSupervisor.StartAll` | src/agent_speak/resource_supervisor.py:433-466 | starts exactly the missing workers, one by one in start order, announcing a warming phase for each |
| `ResourceSupervisor.ResourceSupervisor.Release` | src/agent_speak/resource_supervisor.py:408-431 | everything unwanted, and the worker to restart, is stopped before anything starts; draining and releasing are announced only if something stops |
| `ResourceSupervisor.ResourceSupervisor.Apply` | src/agent_speak/resource_supervisor.py:407-475 | the guarded part of an operation: success means exactly the desired workers are ready |
| `ResourceSupervisor.ResourceSupervisor.RestoreWorkers` | src/agent_speak/resource_supervisor.py:490-518 | rollback stops what the earlier request did not want before it starts what it did, and then observes every workload |
| `ResourceSupervisor.ResourceSupervisor.Rollback` | src/agent_speak/resource_supervisor.py:484-544 | rolled back means the earlier desired set, profile and last ready profile, its workers ready and accurate statuses; otherwise failed |
| `ResourceSupervisor.ResourceSupervisor.Execute` | src/agent_speak/resource_supervisor.py:398-544 | the whole thread: phases only move forward and end terminal, ready workers are at every moment within the initial, desired or earlier desired set; ready, rolled back and failed mean what they say; a successful operation goes through exactly the expected stops, starts and phases in order, and a rolled back one names the step that failed |
| `ResourceSupervisor.OnlyTheRestartedWorkerIsDisturbed` | src/agent_speak/resource_supervisor.py:413-466 | along a successful operation no wanted worker is interrupted except the one it was asked to restart, which is taken down |
| `ResourceSupervisor.StoppedEnough` | src/agent_speak/resource_supervisor.py:413-415 | after the stops only desired workers are ready and the kept ones still are |
| `ResourceRuns.BusyAnswersTheRunningOperation` | src/agent_speak/resource_supervisor.py:255-258 | while an operation has not ended, every request is answered with it and changes nothing |
| `ResourceRuns.RunIsSettled` | src/agent_speak/resource_supervisor.py:246-315 | in every run a thread exists exactly while its operation has not ended, so at most one executes, and execution ends terminal |
| `ResourceRuns.ResetIsNeverSkipped` | src/agent_speak/resource_supervisor.py:225-285 | a reset always starts an operation, however ready its worker is, unless one runs or the agent is missing |
| `ResourceRuns.ReconcileStartsIff` | src/agent_speak/resource_supervisor.py:259-315 | with accurate statuses a reconcile starts an operation exactly when it is admitted and its workers are not already what it asks for |
| `ResourceRuns.AcceptedRequestIsCarriedOut` | src/agent_speak/resource_supervisor.py:204-315 | in every run, the execution after an accepted reset that ends ready took the worker down and ends with it ready; after a reconcile exactly the profile's workers are ready and no wanted one was interrupted; after a rollback the earlier request is in force with its workers |
| `ResourceRuns.ResetWantsItsWorkload` | src/agent_speak/resource_supervisor.py:204-244 | a reset wants its workload unless it is the agent under the exclusive policy, correction along with recognition, everything wanted before unless the policy is exclusive, and names a profile exactly when one plans that set |
| `ResourceRuns.CallKeepsSeparated` | src/agent_speak/resource_supervisor.py:204-231 | under the exclusive policy every request and execution, except an accepted request for the full pipeline, keeps the desired sets and the ready workers unmixed |
| `ResourceRuns.ExclusiveRun` | src/agent_speak/resource_supervisor.py:398-544 | hence until a request for the full pipeline is accepted, which takes an agent, at no moment of any run is the synthesiser ready beside recognition or correction, through failures and rollbacks |
| `ResourceRuns.ExclusiveRunIff` | src/agent_speak/resource_supervisor.py:191-231 | in a run whose executions succeed, with or without an agent, the workers are unmixed at every moment exactly when no execution is for the full pipeline |
| `ResourceRuns.RollbackIsApartIffThePreviousRequestWas` | src/agent_speak/resource_supervisor.py:490-518 | a rollback ends unmixed exactly when the request it restores was unmixed |
| `ResourceRuns.AccurateUntilFailure` | src/agent_speak/resource_supervisor.py:359-386 | until a rollback fails, the published statuses tell exactly which workloads are ready |
| `ResourceRuns.ImmediateReadyIsTrue` | src/agent_speak/resource_supervisor.py:259-285 | with accurate statuses, a reconcile is answered ready at once exactly when nothing runs and the workers already are what it asks for |
| `ResourceRuns.ReadyAtOnce` | src/agent_speak/resource_supervisor.py:259-285 | a reconcile that finds everything ready publishes so under its own profile and moves nothing; repeating it changes nothing |
| `ResourceRuns.AcceptedRequestIsQueued` | src/agent_speak/resource_supervisor.py:286-315 | an accepted request is a new queued operation with a fresh id that wants its workloads |
| `ResourceRuns.ExecutionReports` | src/agent_speak/resource_supervisor.py:398-544 | an execution that ends ready publishes the requested profile as last ready; each keeps its operation's identity and says how it ended and whether a stop or a start failed |
| `ResourceRuns.ReadyPhasesListed` | src/agent_speak/resource_supervisor.py:407-475 | a successful operation publishes draining and releasing exactly if something stops, starting exactly if something starts, and one warming for each worker it starts |
| `ResourceRuns.ExecutionPublishes` | src/agent_speak/resource_supervisor.py:398-475 | and so does every execution that ends ready |
| `ResourceRuns.MovesAre` | src/agent_speak/resource_supervisor.py:408-466 | an operation stops the unwanted and the one to restart, and starts the wanted that are then not ready |
| `ClipScheduler.AvatarStateMachine.Select` | AI_Avatar/frontend/controllers/AvatarStateMachine.ts:16-23 | selecting the playing state clears the pending one |
| `ClipScheduler.AvatarStateMachine.CompleteLoop` | AI_Avatar/frontend/controllers/AvatarStateMachine.ts:25-32 | a pending state becomes the playing one |
| `ClipScheduler.StateTransitionController.Select` | AI_Avatar/frontend/controllers/StateTransitionController.ts:13-19 | an unavailable state is refused without change |
| `ClipScheduler.StateTransitionController.OnLoopBoundary` | AI_Avatar/frontend/controllers/StateTransitionController.ts:21-25 | reports the completed loop, then switches |
| `ClipScheduler.ClipScheduler.Step` | AI_Avatar/frontend/controllers/ClipScheduler.ts:58-71 | the next frame, or the last frame and a switch at the loop's end; paused repeats |
| `ClipScheduler.ClipScheduler.Advance` | AI_Avatar/frontend/controllers/ClipScheduler.ts:73-87 | moves only when a frame interval has passed since the last move |
| `ClipScheduler.ClipScheduler.AdvanceToFrame` | AI_Avatar/frontend/controllers/ClipScheduler.ts:89-112 | jumps to the first position of a frame or completes the loop on the shared frame; otherwise fails unchanged |
| `ClipScheduler.ClipScheduler.Restart` | AI_Avatar/frontend/controllers/ClipScheduler.ts:52-56 | back to the first frame with nothing pending |
| `ClipRuns.MoveKeepsUncut` | AI_Avatar/frontend/controllers/ClipScheduler.ts:58-71 | one move continues the current loop or completes it |
| `ClipRuns.LoopsAreNeverCut` | AI_Avatar/frontend/controllers/ClipScheduler.ts:58-87 | without restart and jump, every run shows whole loops followed by the beginning of one |
| `ClipRuns.NewPlayerShowsWholeLoops` | AI_Avatar/frontend/controllers/ClipScheduler.ts:27-87 | the same for a new scheduler in any initial state, the loops being exactly the completed-loop events |
| `ClipRuns.IdleTicksRepeat` | AI_Avatar/frontend/controllers/ClipScheduler.ts:58-87 | a tick that does not move repeats the frame last shown |
| `ClipTimes.TickMovesIff` | AI_Avatar/frontend/controllers/ClipScheduler.ts:73-87 | a tick moves exactly when the player is not paused, its clock runs and a frame interval has passed, and then sets the clock; the first tick only starts it |
| `ClipTimes.MovesAreSpaced` | AI_Avatar/frontend/controllers/ClipScheduler.ts:73-87 | however often the display ticks, two moves are at least a frame of the playing clip apart |
| `ClipTimes.JumpLandsOnTheFrame` | AI_Avatar/frontend/controllers/ClipScheduler.ts:89-112 | a jump lands on the first place of the frame, changes nothing else, and fails exactly when the clip lacks it |
| `ClipTimes.JumpEndsTheLoop` | AI_Avatar/frontend/controllers/ClipScheduler.ts:89-112 | a jump over the loop's end needs the last frame to be named and to be the shared one, and then switches as a loop's end does |
| `ClipTimes.RunAnnounces` | AI_Avatar/frontend/controllers/StateTransitionController.ts:13-25 | in every run the events are exactly the accepted selections and the completed loops, in order |
| `ClipRuns.SwitchesOnTheSharedFrame` | AI_Avatar/frontend/controllers/ClipScheduler.ts:58-112 | for every operation, the state changes exactly where a loop ends with another available selection made since, on the shared frame, to the latest such selection |
| `ClipRuns.EveryRunIsChosen` | AI_Avatar/frontend/controllers/AvatarStateMachine.ts:16-32 | in every run the pending state is the latest available selection, or nothing when that already plays |
| `ClipRuns.IndexStaysInsideTheLoop` | AI_Avatar/frontend/controllers/ClipScheduler.ts:52-112 | the frame index never rests on the closing frame, restarts and jumps included |
| `ClipRuns.SelectionPlaysAtTheNextBoundary` | AI_Avatar/frontend/controllers/ClipScheduler.ts:58-71 | a pending selection plays after exactly the steps left in the current loop and not before |
| `ClipRuns.ReselectingCancels` | AI_Avatar/frontend/controllers/StateTransitionController.ts:13-19 | selecting the playing state cancels the pending one exactly when the playing state is available |
| `ClipRuns.WithdrawnSelectionStillPlays` | AI_Avatar/frontend/controllers/StateTransitionController.ts:27-33 | making a selected state unavailable does not stop it from playing next |

## Left out

- Arithmetic on samples, scores and ratios is over real numbers; rounding, infinities and not-a-number are not modelled.
- Token extraction by regular expression, JSON parsing and HTTP transport: the guard takes the token function and the parsed reply as given.
- Languages, model identifiers and settings carried along by jobs and sessions, and what the events of a stream say; only their number is modelled.
- Wall-clock time and generated identifiers: polls are counted, identifiers come from counters, and a session identifier is never reused.
- The audio source, image decoding, segmentation, resizing and frame normalisation; images are arrays of four-channel pixels.
- RealtimeCoordinator: the detector and the voice-activity score are not connected to the step system; which work a client queues, and when, is arbitrary, and so is what an endpoint answer leads to.
- RealtimeCoordinator: retries of a final transcription and the timeout of the endpoint question; a result is arbitrary, present or absent.
- RealtimeCoordinator: what a client's own operation raises, and that the operation waits while its event waits for room; the next operation of that client may come earlier here.
- RealtimeCoordinator: the coordinator closes its queues at any time; the original first stops every registered stream.
- RealtimeClosing.CanDrain: quantifies over the runs in which no client of the stream acts, its stop neither begins nor finishes, the broker keeps its session and the queues stay open; BecomesIdleIff allows the last two. StrandedStreamIsNeverIdle is about all runs.
- RealtimeServing.RegisteredStreamDrainsIff: says nothing about moments at which a worker is at a job, or about a session that the broker evicted; AbandonedStreamIsNeverIdle covers those in one direction.
- ResourceRuns.ExclusiveRun: an abandoned start that comes up later is not modelled; if it does, the worker is ready beside whatever runs by then.
- RealtimeQueue.AsrQueue: the ordered dictionary of partials is a sequence of slots with distinct keys.
- RealtimeQueue.ASRScheduler.Dequeue: a call that would suspend returns `MustWait` instead; fairness between waiting workers is not modelled.
- AvatarImages.RemoveBorderBackground: for an image with exactly one empty side the original raises an index error, here a named failure.
- PcmCapture.PcmCaptureProcessor.Process: sample rates below 25 per second, where a block would be empty, are excluded; the Web Audio interface does not offer them.
- SessionBroker.SessionBroker.Publish: an event carries its number and type only; a session's state field is not modelled.
- SessionBroker: the lock is never held across a suspension, so each operation is one step.
- ModelManager: language and audio passed to inference; the memory cleanup, which does not fail.
- ResourceSupervisor: model names, devices, per-worker errors and operator hints of a status; writing the snapshot to disk, which does not fail; waiting for an operation; the socket protocol and the Compose commands.
- ResourceSupervisor.ResourceSupervisor.constructor: readiness is read without raising; a supervisor whose first observation raises does not start.
- ResourceSupervisor.ResourceSupervisor.ResetWorkload: in the class a reset reads the snapshot it requests from; the runs in ResourceRuns allow any earlier snapshot of the same policy.
- ResourceRuns: nothing is claimed about the statuses after a failed rollback; they may be stale, and a later immediate ready answer relies on them.
- ResourceTypes: the choice of a policy from the memory budget and the serialised form of snapshots add only two-branch facts.
- ClipScheduler: event listeners only observe; a listener that selects a state while an event is being delivered is not modelled.
- ClipScheduler: manifest parsing; a clip has at least three frames and a positive rate, and lemmas that need the shared first and last frame say so.
- Some long methods of the original are split: StopOne, StartOne, StartNext, Release, Launch, StopUnwanted, StartWanted and RestoreWorkers belong to the supervisor's thread, Unload, LoadAndWarm, Replace, Switch, Recover and Rollback to `activate`, LastCell to the edit distance, and FindRemovable, RemoveSession and AddSession to session creation.
