# Verified models of the camera, power-hint, interaction and fingerprint services

This project models the parts of the repository that hold real algorithms and protocols, and proves
properties of them for all inputs, all runs and all interleavings of lock-protected sections.
`dafny verify dfyconfig.toml` checks everything.

State is modelled twice where the code updates it in place: as a value with a step function, about
which the theorems are proved, and as a class whose methods, with the loops of the original, are
proved to compute that step. A lock-protected section is one step; threads interleave between steps.

| files | component |
|---|---|
| Basics | options, minima, 32-bit ranges and truncating division, shared by the rest |
| ResultBatch, ResultBatchConservation, BatcherRuns, BatcherTheorems, BatcherCompletion, BatcherWitnesses, ResultBatcher | the camera result batcher: one batch, its accounts, the state machine, its theorems, when batches are complete, what happens without its promises, the classes |
| BufferCache, CameraBuffers | stream map and imported-buffer cache across reconfiguration |
| ResultOverrides | per-frame sensitivity-boost key and precapture-cancel override |
| SessionMetrics, SessionWindow, SessionFps, SessionRecords, MetricSessions | frame records (ring buffer and monotone deque), the running FPS sum, and the metrics made of them |
| Votes, TaskUclamp | uclamp votes, and the range of a task |
| VoteTimeouts, BackgroundWorker, TimeoutDelivery | vote timeouts that requeue themselves, the deadline worker that runs them, and the two together |
| SessionLinks, SessionTaskMap | the two-way map of sessions and tasks, and pausing |
| Channels, ChannelManager, ChannelDispatch, ChannelFlags | channel slots, packed keys, message grouping, the flag scan |
| PidController | the PID loop, the jank level and the next control value |
| InteractionHandler | the display-idle boost |
| Lockout | fingerprint lockout and its timer |

## What turned out not to hold

Each of these is shown by a lemma with a concrete run, by an if-and-only-if lemma that names the
failing cases, or by both.

- Two concurrent errors of one camera batch: the second pops a queue that the first has emptied
  (`StaleErrorIsUndefined`) or flushes a batch that does not hold its frame
  (`StaleErrorFlushesAnother`). It pops what it should exactly when its lookup is current
  (`ErrorPopsExactly`).
- Metadata that follows the last frame's final partial result is lost, even with every partial index
  in frame order (`LateMetadataIsLost`; exact in `MetadataKeptExact`).
- A shutter that follows the last frame's shutter of its batch is lost in the same way
  (`LateShutterIsLost`; exact in `ShutterKeptExact`).
- A batch registered after results of its frames mis-tags buffers (`LateRegistrationMistags`, in
  general `LateRegistrationShifts`; re-tagging is right exactly as `RetagExact` says).
- A batch that finishes before an earlier one stays queued after all is delivered, until another check
  comes (`FinishedBatchStaysQueued`; exact in `CheckExact` and `ChecksEmptyTheQueueExactly`).
- An error flush with a changed stream set can leave a batch undelivered (`ChangedStreamsStrand`;
  exact in `FlushAllDeliveredExact`).
- `schedule` reads the id counter again outside its lock, so a package that was overtaken before the
  read is lost (`TwoSchedulesLoseOne`, `OvertakenIsLost`; exact in `NoLossExact`), and the one that
  overtook it is queued under the other's deadline (`QueuedUnderExactly`, `OwnDeadlinesExactly`). The vote
  of a lost timeout stays on (`LostTimeoutLeavesVoteOn`, with the run `TwoVotesLoseATimeout`).
- Shortening the duration of an active vote can leave it on past its end (`ShorteningOutlives`;
  exact in `UpdateDurationExact` and `UpdateAfterVoteSetExact`).
- The max of a task's uclamp depends on link order (`OrderMattersExample`; exact in
  `TaskMaxOrderExact`).
- Importing a buffer for an unknown stream breaks the agreement of the two maps (`ImportDomainExact`),
  and a request for one can make the next configuration look up a missing cache
  (`UnknownStreamBreaksConfiguration`; exact in `RequestExact`).
- A left-over abort mark silences the next lockout timer (`SilencedTimerIsReached`; exact in
  `AbortMarkExact` and `TimerEndsExactly`).
- The timer of one lockout can end the next one early (`OldTimerEndsNewLockout`; exact in
  `OwnTimerExactly`).
- An interval skipped while the FPS check warms up stays in the running sum until a report without
  game metrics (`SkippedIntervalStays`; exact in `OffsetExact`).
- `Exit` keeps the perf lock if an interaction is going on (`ExitLeaksExactly`, `HeldExactly`).
- A target below 100 us makes the PID loop divide by zero (`DivisorsExact`).
- A disconnected session frees no buffer when closed (`ClosingFreesEverything`).

In two more places the code does something a reader may not expect, and the model follows the code:
a negative interaction duration wraps round to the longest boost (`FinalDurationExact`), and the
FPS fields of the session records survive a reset (`ResetRunOffset`).

## Model

| member | source | states |
|---|---|---|
| `ResultBatchConservation.SendShuttersConserves` | camera/aidl/device/CameraDeviceSession.cpp:483-497 | sending the shutters moves every queued shutter to one callback, once, and empties the queue |
| `ResultBatchConservation.QueueShutterConserves` | camera/aidl/device/CameraDeviceSession.cpp:708-729 | a shutter that comes before the batch's shutters went out is queued, delivered with all of them at the last frame, or passed on directly once the batch is removed; per item nothing is lost or repeated |
| `ResultBatchConservation.BufferResultsCount` | camera/aidl/device/CameraDeviceSession.cpp:547-622 | the results built from the queues hold each queued buffer of the sent streams once, under frame first + position |
| `ResultBatchConservation.SendBuffersConserves` | camera/aidl/device/CameraDeviceSession.cpp:542-622 | items delivered plus items still pending are unchanged by sending the buffers of any distinct streams of the batch, delivered ones among them |
| `ResultBatchConservation.SendMetadataConserves` | camera/aidl/device/CameraDeviceSession.cpp:624-659 | the same for partial metadata up to an index |
| `ResultBatchConservation.QueueBuffersConserves` | camera/aidl/device/CameraDeviceSession.cpp:811-839 | a result's buffers that land at their frame's position are each queued, pending as that frame's, or among the non-batched ones; per item nothing is lost or repeated |
| `ResultBatchConservation.RetagExact` | camera/aidl/device/CameraDeviceSession.cpp:582-609 | re-tagging by position yields the reported frame if and only if the queue is exactly as long as the frame's offset in the batch |
| `ResultBatchConservation.ProcessResultConserves` | camera/aidl/device/CameraDeviceSession.cpp:787-857 | a result processed under its batch lock loses nothing, repeats nothing and moves nothing to another frame |
| `ResultBatchConservation.ProcessResultShape` | camera/aidl/device/CameraDeviceSession.cpp:787-857 | which queues a result makes longer and which flags and queues the last frame clears |
| `ResultBatchConservation.AllDeliveredHoldsNothing` | camera/aidl/device/CameraDeviceSession.cpp:400-413 | a batch whose flags say all delivered has nothing pending |
| `ResultBatchConservation.FlushConserves` | camera/aidl/device/CameraDeviceSession.cpp:687-706 | the error flush delivers everything a batch holds when its streams are the ones it was registered with |
| `ResultBatchConservation.FlushAllDeliveredExact` | camera/aidl/device/CameraDeviceSession.cpp:687-706 | an error flush leaves the batch all-delivered if and only if every undelivered stream is listed and every listed stream is one of the batch |
| `ResultBatchConservation.FlushStrandsNothingExact` | camera/aidl/device/CameraDeviceSession.cpp:687-706 | it strands no buffer if and only if no stream that still holds one fails that condition |
| `ResultBatchConservation.FlushDelivers` | camera/aidl/device/CameraDeviceSession.cpp:687-706 | under that condition everything the batch held is delivered once |
| `BatcherRuns.LookupExact` | camera/aidl/device/CameraDeviceSession.cpp:444-463 | getBatch returns the unique queued batch of a frame, and not-batched if and only if there is none, despite the range shortcut |
| `BatcherTheorems.NextKeepsInv` | camera/aidl/device/CameraDeviceSession.cpp:431-481 | every step (register, look up, work, remove, change streams) keeps the whole invariant |
| `BatcherTheorems.ExactlyOnce` | camera/aidl/device/CameraDeviceSession.cpp:542-857 | over every admissible interleaving each reported shutter, error, buffer, input and partial metadata is delivered or queued once, under the frame it was reported for; delivered are exactly those that no batch in flight collects and those that the event they wait for has followed: the last frame's shutter, the stream's buffer of the last frame, a result of the last frame that raises the partial index |
| `BatcherCompletion.DeliveredExactly` | camera/aidl/device/CameraDeviceSession.cpp:708-729 | over every admissible run a batch in flight has its shutters sent if and only if the last frame's shutter was reported, its metadata if and only if the last frame's final partial result was, a stream's buffers if and only if all its frames' were; once all have come it holds nothing, still queued and without any error |
| `BatcherCompletion.FinishedRunDeliversAll` | camera/aidl/device/CameraDeviceSession.cpp:787-857 | a run at whose end every batch is finished or gone has delivered all that was reported exactly once, whatever is still queued |
| `BatcherCompletion.FlushDeliversInSteadyRuns` | camera/aidl/device/CameraDeviceSession.cpp:687-706 | over every admissible run in which the batched streams change only between batches, an error flush leaves each batch it meets all delivered, holding nothing, with all it held sent up |
| `BatcherCompletion.CheckExact` | camera/aidl/device/CameraDeviceSession.cpp:465-481 | in every reachable state a check removes the first queued batch if and only if all it waits for was reported, and no other batch |
| `BatcherCompletion.ChecksExact` | camera/aidl/device/CameraDeviceSession.cpp:465-481 | n checks remove the finished batches at the front of the queue, at most n of them |
| `BatcherCompletion.ChecksEmptyTheQueueExactly` | camera/aidl/device/CameraDeviceSession.cpp:465-481 | checks empty the queue if and only if all its batches are finished and there is one check for each |
| `BatcherCompletion.PromptRunsEmptyTheQueue` | camera/aidl/device/CameraDeviceSession.cpp:725-728 | when each event is checked before the next is worked on and no batch finishes before an earlier one, no finished batch stays queued, so the queue is empty if and only if all batches are finished |
| `BatcherCompletion.FinishedBatchStaysQueued` | camera/aidl/device/CameraDeviceSession.cpp:465-481 | a run without errors after which everything is delivered and a batch that finished before an earlier one is still queued |
| `BatcherTheorems.QueueExact` | camera/aidl/device/CameraDeviceSession.cpp:431-481 | in every reachable state the queued batches are disjoint sorted intervals, removed holds exactly for batches no longer queued, these hold nothing, and the lookup is exact |
| `BatcherWitnesses.ErrorPopsExactly` | camera/aidl/device/CameraDeviceSession.cpp:669-706 | an error call pops exactly the batches up to its own if and only if its lookup is still current, that is, if and only if no batch left the queue since |
| `BatcherWitnesses.StaleErrorIsUndefined` | camera/aidl/device/CameraDeviceSession.cpp:669-706 | an admissible run of two concurrent errors of one batch after which the second pops from an empty queue |
| `BatcherWitnesses.StaleErrorFlushesAnother` | camera/aidl/device/CameraDeviceSession.cpp:669-706 | the same run with another batch queued: the second error flushes that batch, which does not hold its frame |
| `BatcherWitnesses.MetadataKeptExact` | camera/aidl/device/CameraDeviceSession.cpp:624-659 | metadata of any partial index that reaches a batch leaves it by the flush at the latest, if and only if the last frame's final partial result has not been sent up yet |
| `BatcherWitnesses.LateMetadataIsLost` | camera/aidl/device/CameraDeviceSession.cpp:804-850 | metadata after the last frame's final partial result is stuck although each index saw its frames in order, and the flushed batch counts as delivered |
| `BatcherWitnesses.ShutterKeptExact` | camera/aidl/device/CameraDeviceSession.cpp:483-497 | a shutter that reaches a batch leaves it by the flush at the latest, if and only if the batch's shutters have not been sent up yet |
| `BatcherWitnesses.LateShutterIsLost` | camera/aidl/device/CameraDeviceSession.cpp:717-720 | a shutter after the last frame's is stuck, although the batch counts as delivered, also after a flush |
| `BatcherWitnesses.ChangedStreamsStrand` | camera/aidl/device/CameraDeviceSession.cpp:542-578 | a flush after the batched streams changed leaves a queued buffer behind |
| `BatcherWitnesses.LateRegistrationShifts` | camera/aidl/device/CameraDeviceSession.cpp:1165-1167 | a stream that had some results before the registration has every later buffer of the batch delivered that many frames early |
| `BatcherWitnesses.LateRegistrationMistags` | camera/aidl/device/CameraDeviceSession.cpp:1165-1167 | a batch registered only after a result of its frames delivers the last frame's buffer as the first frame's |
| `ResultBatcher.InflightBatch.constructor` | camera/aidl/device/CameraDeviceSession.h:244-284 | a new batch, as NewBatch says |
| `ResultBatcher.InflightBatch.CheckAllDelivered` | camera/aidl/device/CameraDeviceSession.cpp:400-413 | true if and only if shutters, all streams and all partial results are delivered |
| `ResultBatcher.ResultBatcher.RegisterBatch` | camera/aidl/device/CameraDeviceSession.cpp:431-442 | appends a fresh batch over the frames and leaves the others |
| `ResultBatcher.ResultBatcher.GetBatch` | camera/aidl/device/CameraDeviceSession.cpp:444-463 | the index that Lookup defines |
| `ResultBatcher.ResultBatcher.CheckAndRemoveFirstBatch` | camera/aidl/device/CameraDeviceSession.cpp:465-481 | marks and pops the first batch if and only if it is all delivered |
| `ResultBatcher.ResultBatcher.SendBatchShutterCbsLocked` | camera/aidl/device/CameraDeviceSession.cpp:483-497 | callbacks and batch as SendShutters says |
| `ResultBatcher.ResultBatcher.SendBatchBuffersLocked` | camera/aidl/device/CameraDeviceSession.cpp:547-622 | callbacks and batch as SendBuffers says |
| `ResultBatcher.ResultBatcher.SendBatchMetadataLocked` | camera/aidl/device/CameraDeviceSession.cpp:624-659 | callbacks and batch as SendMetadata says |
| `ResultBatcher.ResultBatcher.NotifyShutterLocked` | camera/aidl/device/CameraDeviceSession.cpp:708-729 | callbacks and batch as QueueShutter says |
| `ResultBatcher.ResultBatcher.FlushBatchLocked` | camera/aidl/device/CameraDeviceSession.cpp:691-702 | callbacks and batch as Flush says |
| `ResultBatcher.ResultBatcher.NotifyErrorLocked` | camera/aidl/device/CameraDeviceSession.cpp:687-706 | flushes and pops all batches up to the index, in place, then passes the error on |
| `ResultBatcher.ResultBatcher.ProcessCaptureResultLocked` | camera/aidl/device/CameraDeviceSession.cpp:796-851 | callbacks and batch as ProcessResult says |
| `BufferCache.ImportKeeps` | camera/aidl/device/CameraDeviceSession.cpp:294-321 | importing keeps live imports and cached handles the same, one place each |
| `BufferCache.ImportDomainExact` | camera/aidl/device/CameraDeviceSession.cpp:306-318 | importing keeps the two maps' domains equal if and only if the stream is configured |
| `BufferCache.EvictAllKeeps` | camera/aidl/device/CameraDeviceSession.cpp:938-956 | evicting any list of buffers, known or not, keeps the accounts and the domains |
| `BufferCache.ConfigureKeeps` | camera/aidl/device/CameraDeviceSession.cpp:859-927 | under both freeing policies, every device answer and every early return, the accounts and the domain agreement hold again when the lock is released |
| `BufferCache.ConfigureExact` | camera/aidl/device/CameraDeviceSession.cpp:1025-1050 | a successful configuration leaves exactly the requested ids in both maps, with the buffers of kept streams still cached |
| `BufferCache.RefusalExact` | camera/aidl/device/CameraDeviceSession.cpp:1063-1081 | a refused configuration forgets no stream and drops only buffers of streams the request left out, only under the early policy |
| `BufferCache.RequestExact` | camera/aidl/device/CameraDeviceSession.cpp:1230-1255 | a request keeps every stream backed by a cache if and only if each of its streams is configured or has a cache, and the domains equal if and only if all are configured |
| `BufferCache.EveryRunIsExact` | camera/aidl/device/CameraDeviceSession.cpp:930-1081 | over every run of imports, requests, evictions, configurations, close and disconnect: live imports are exactly the cached handles, injectively; a run on configured streams is defined throughout and keeps the domains equal while open |
| `BufferCache.UnknownStreamBreaksConfiguration` | camera/aidl/device/CameraDeviceSession.cpp:930-936 | a request for a stream never configured makes the next configuration look up a missing cache |
| `BufferCache.ClosingFreesEverything` | camera/aidl/device/CameraDeviceSession.cpp:1349-1388 | closing an open session leaves no import; after a disconnect, close frees nothing |
| `CameraBuffers.CameraSession.ImportBuffer` | camera/aidl/device/CameraDeviceSession.cpp:294-321 | cache and status for every input, with the two empty-buffer early returns |
| `CameraBuffers.CameraSession.UseStreams` | camera/aidl/device/CameraDeviceSession.cpp:1230-1255 | the stream map after a request took its streams' entries |
| `CameraBuffers.CameraSession.UpdateBufferCaches` | camera/aidl/device/CameraDeviceSession.cpp:938-956 | the loop over the caches to remove; each free is of a live handle |
| `CameraBuffers.CameraSession.CleanupBuffers` | camera/aidl/device/CameraDeviceSession.cpp:930-936 | frees each buffer of a stream once, in any order, and erases the entry |
| `CameraBuffers.CameraSession.AcceptStreams` | camera/aidl/device/CameraDeviceSession.cpp:971-1003 | the loop that takes requested streams in, stopping at an incompatible one |
| `CameraBuffers.CameraSession.ConfigureStreams` | camera/aidl/device/CameraDeviceSession.cpp:859-927 | new maps and status as Configure says; no import is freed twice |
| `CameraBuffers.CameraSession.CloseDevice` | camera/aidl/device/CameraDeviceSession.cpp:1349-1388 | frees every import once |
| `ResultOverrides.LowerExact` | camera/aidl/device/CameraDeviceSession.cpp:201-236 | a request is changed if and only if an old device is asked to cancel; the device then never sees CANCEL, and other tags stay |
| `ResultOverrides.BoostReported` | camera/aidl/device/CameraDeviceSession.cpp:1455-1482 | the delivered final result has the boost key if and only if the device put it there or no partial result had it, and then the value is the device's or 100 |
| `ResultOverrides.BoostUntouched` | camera/aidl/device/CameraDeviceSession.cpp:1455-1482 | no earlier partial result gains or loses the key |
| `ResultOverrides.CancelIsReportedBack` | camera/aidl/device/CameraDeviceSession.cpp:277-292 | every result of a frame with a replaced trigger reports the trigger, and the lock where it was changed, as requested |
| `ResultOverrides.FramesAreIndependent` | camera/aidl/device/CameraDeviceSession.cpp:1450-1502 | in any interleaving a frame's entries depend on its own events alone |
| `ResultOverrides.NothingSurvives` | camera/aidl/device/CameraDeviceSession.cpp:1676-1704 | in any interleaving a frame whose last event is its final result or an error has no entry left in either map |
| `ResultOverrides.EveryFrameReportsBoost` | camera/aidl/device/CameraDeviceSession.cpp:1455-1482 | the boost law for every frame of every interleaving |
| `ResultOverrides.EveryCancelIsReportedBack` | camera/aidl/device/CameraDeviceSession.cpp:1484-1495 | the cancel law for every frame of every interleaving |
| `ResultOverrides.OtherTagsUntouched` | camera/aidl/device/CameraDeviceSession.cpp:1450-1502 | a result's other tags pass unchanged |
| `ResultOverrides.OverrideTable.LowerRequest` | camera/aidl/device/CameraDeviceSession.cpp:201-236 | settings passed on and override remembered |
| `ResultOverrides.OverrideTable.RaiseResult` | camera/aidl/device/CameraDeviceSession.cpp:1450-1502 | delivered metadata and new entries for a partial result |
| `ResultOverrides.OverrideTable.Forget` | camera/aidl/device/CameraDeviceSession.cpp:1684-1699 | an error drops both entries |
| `SessionWindow.AddDurationValid` | power-libperfmgr/aidl/SessionRecords.cpp:41-134 | one reported frame keeps ring, monotone deque and counters describing the frames since the reset |
| `SessionWindow.MaxIsExact` | power-libperfmgr/aidl/SessionRecords.cpp:137-142 | the deque front is the maximum of the last min(n, K) frames; no value if and only if there is none |
| `SessionWindow.TotalsAreExact` | power-libperfmgr/aidl/SessionRecords.cpp:144-157 | count, sum, truncated mean, missed cycles (never negative) and jitters (up to the offset at the last reset) are those of that window |
| `SessionWindow.LatestIntervalsAreExact` | power-libperfmgr/aidl/SessionRecords.cpp:159-173 | the three ring indexes, with wrap-around, are the last three frames |
| `SessionWindow.LowFrameRateIsExact` | power-libperfmgr/aidl/SessionRecords.cpp:159-173 | low frame rate if and only if at least three frames and the last three intervals all reach the threshold |
| `SessionWindow.FpsSumTracksLastThree` | power-libperfmgr/aidl/SessionRecords.cpp:85-102 | in one step the running interval sum gains the new interval and loses the one three frames back |
| `SessionWindow.GameRunKeepsOffset` | power-libperfmgr/aidl/SessionRecords.cpp:85-102 | over any run of game reports without a reset the running sum is the last three intervals plus a constant |
| `SessionFps.GameRunOffset` | power-libperfmgr/aidl/SessionRecords.cpp:85-102 | over any run of game reports from fresh records or after other reports the sum is that of the positive intervals until three have come, and then that of the last three intervals plus the offset that the warm-up left |
| `SessionFps.OffsetExact` | power-libperfmgr/aidl/SessionRecords.cpp:86-90 | the offset is the positive intervals before the last three of the warm-up plus what those three fall short of being positive; never negative, and zero if and only if these three are positive |
| `SessionFps.FreshGameRun` | power-libperfmgr/aidl/SessionRecords.cpp:85-102 | from fresh records, when the second to fourth frame have positive intervals, the sum is that of the last three intervals at every later point |
| `SessionFps.ResetRunOffset` | power-libperfmgr/aidl/SessionRecords.cpp:175-183 | over any run of game reports after a reset the warm-up goes on from the frames counted before it, and then the sum is that of the last three intervals plus a constant, the intervals in the ring's last three slots counting as those before the reset |
| `SessionFps.ResetShiftsOffset` | power-libperfmgr/aidl/SessionRecords.cpp:175-183 | after a reset of a check that had warmed up, the constant from the third frame on is the sum at the reset less the intervals left in the ring's last three slots |
| `SessionFps.SkippedIntervalStays` | power-libperfmgr/aidl/SessionRecords.cpp:86-90 | a repeated timestamp after the first positive interval leaves that interval in the sum |
| `SessionWindow.JitterExact` | power-libperfmgr/aidl/SessionRecords.cpp:92-95 | a frame is marked a jitter if and only if its interval exceeds 1.4 times a third of that sum |
| `SessionWindow.EveryRunTracks` | power-libperfmgr/aidl/SessionRecords.cpp:37-183 | after any sequence of reports and resets the fields describe exactly the frames since the last reset |
| `SessionRecords.SessionRecords.ResetRecords` | power-libperfmgr/aidl/SessionRecords.cpp:175-183 | the state Reset defines; the FPS fields stay |
| `SessionRecords.SessionRecords.MakeRoomForOne` | power-libperfmgr/aidl/SessionRecords.cpp:44-68 | removes the oldest record in place as MakeRoom says |
| `SessionRecords.SessionRecords.PopNotGreater` | power-libperfmgr/aidl/SessionRecords.cpp:126-129 | the deque after popping as PopShorter says |
| `SessionRecords.SessionRecords.AppendRecord` | power-libperfmgr/aidl/SessionRecords.cpp:109-133 | writes the ring in place as Append says |
| `SessionRecords.SessionRecords.AddReportedDurations` | power-libperfmgr/aidl/SessionRecords.cpp:37-135 | fields and metrics after a batch as AddAll and AllMetrics say |
| `SessionRecords.SessionRecords.GetMaxDuration` | power-libperfmgr/aidl/SessionRecords.cpp:137-142 | the value MaxDuration defines |
| `SessionRecords.SessionRecords.GetAvgDuration` | power-libperfmgr/aidl/SessionRecords.cpp:144-149 | the value AvgDuration defines |
| `SessionRecords.SessionRecords.CheckLowFrameRate` | power-libperfmgr/aidl/SessionRecords.cpp:159-173 | the answer IsLowFrameRate defines |
| `MetricSessions.GameSessionExact` | power-libperfmgr/aidl/SessionMetrics.cpp:42-74 | in a game session only the game field is filled, the frame number is the number of frames, the histograms count each frame once in its bucket, and the total time is the sum of min(interval, 100) |
| `MetricSessions.AppSessionExact` | power-libperfmgr/aidl/SessionMetrics.cpp:76-85 | in an app session only the app field is filled, with the bucket sums, and the frame number is their total |
| `MetricSessions.ReportExact` | power-libperfmgr/aidl/SessionRecords.cpp:193-226 | the metrics of a batch count each frame once, the jank buckets sum to the missed frames of at least 17 ms, and the game times are the positive start intervals in milliseconds |
| `MetricSessions.WholeGameSession` | power-libperfmgr/aidl/SessionMetrics.cpp:42-74 | over any calls, with resets of the records in between, a game session counts each frame with a positive start interval once; its timing histogram and capped total time are those of these intervals, and its delta histogram is that of their differences to the frame before, from the third frame since a reset on |
| `MetricSessions.WholeAppSession` | power-libperfmgr/aidl/SessionMetrics.cpp:76-85 | over any such calls an app session counts each frame once, and its jank buckets hold exactly the missed frames of at least 17 ms |
| `MetricSessions.SessionMetricsRecord.UpdateFrameMetrics` | power-libperfmgr/aidl/PowerSessionManager.cpp:645-668 | fills the field of the scenario in place as the functions say |
| `MetricSessions.SessionMetricsRecord.Reset` | power-libperfmgr/aidl/SessionMetrics.cpp:32-40 | back to an empty session |
| `Votes.ConfinedUnique` | power-libperfmgr/aidl/UClampVoter.cpp:26-33 | the range of a set of votes is determined by what it means: largest min, smallest max of the votes in range |
| `Votes.WithRangeExact` | power-libperfmgr/aidl/UClampVoter.cpp:151-203 | changing one vote's timing leaves the timing of all others |
| `Votes.VoteTable.AddCpuVote` | power-libperfmgr/aidl/UClampVoter.cpp:50-54 | the table AddCpu defines; GPU ids are refused |
| `Votes.VoteTable.AddGpuVote` | power-libperfmgr/aidl/UClampVoter.cpp:73-77 | the table AddGpu defines; CPU ids are refused |
| `Votes.VoteTable.SetUseVote` | power-libperfmgr/aidl/UClampVoter.cpp:151-167 | the table SetUse defines; found if and only if the vote exists |
| `Votes.VoteTable.UpdateVoteDuration` | power-libperfmgr/aidl/UClampVoter.cpp:79-92 | the table UpdateDuration defines |
| `Votes.VoteTable.GetUclampRange` | power-libperfmgr/aidl/UClampVoter.cpp:94-100 | the confined range, whatever order the unordered map is walked in |
| `TaskUclamp.AppliedRangeIsSane` | power-libperfmgr/aidl/PowerSessionManager.cpp:64-67 | what is applied satisfies 0 <= min <= max <= 1024, and a range already so is unchanged |
| `TaskUclamp.TaskMinExact` | power-libperfmgr/aidl/SessionTaskMap.cpp:80-103 | a task's min is the largest min of the votes in range of its active sessions, whatever the link order and power-efficient flags |
| `TaskUclamp.AppliedMinOrderFree` | power-libperfmgr/aidl/SessionTaskMap.cpp:80-103 | so the applied min is the same in every link order |
| `TaskUclamp.TaskMaxOrderExact` | power-libperfmgr/aidl/SessionTaskMap.cpp:91-102 | the max before clamping is the same in every link order if and only if OrderFree holds of the sessions' contributions |
| `TaskUclamp.OrderMatters` | power-libperfmgr/aidl/SessionTaskMap.cpp:91-102 | otherwise two orders with different results |
| `TaskUclamp.OrderMattersExample` | power-libperfmgr/aidl/SessionTaskMap.cpp:91-102 | two concrete sessions whose max is 100 in one order and 600 in the other |
| `TaskUclamp.NoEfficientSessionsOrderFree` | power-libperfmgr/aidl/SessionTaskMap.cpp:91-102 | no order matters while no active linked session is power-efficient |
| `VoteTimeouts.NoVoteIsForgotten` | power-libperfmgr/aidl/PowerSessionManager.cpp:363-506 | over every interleaving each active vote of a registered session has an event about to be queued, queued or popped |
| `VoteTimeouts.EventsStayInTime` | power-libperfmgr/aidl/PowerSessionManager.cpp:363-506 | and one due no later than the vote's end, as long as updates of durations do not move an end before all pending events |
| `VoteTimeouts.DueMeansNoneOutlives` | power-libperfmgr/aidl/PowerSessionManager.cpp:458-506 | events are in time if and only if no vote can be active at or after its end with no event of it due |
| `VoteTimeouts.UpdateDurationExact` | power-libperfmgr/aidl/PowerSessionManager.cpp:346-361 | an update of a duration keeps events in time if and only if the vote's new end is not before the deadline of its first pending event |
| `VoteTimeouts.UpdateAfterVoteSetExact` | power-libperfmgr/aidl/PowerSessionManager.cpp:346-361 | for a vote just set, an update is in time if and only if it does not shorten the duration, and the vote outlives its end if and only if it does |
| `VoteTimeouts.LengtheningIsSafe` | power-libperfmgr/aidl/PowerSessionManager.cpp:346-361 | a longer duration always keeps it |
| `VoteTimeouts.ShorteningOutlives` | power-libperfmgr/aidl/PowerSessionManager.cpp:346-361 | a run that shortens the default vote of a session and leaves it on past its end |
| `VoteTimeouts.NoVoteOutlivesItsTimeout` | power-libperfmgr/aidl/PowerSessionManager.cpp:458-506 | once every event due by now is handled, no active vote's end has passed |
| `VoteTimeouts.NeverEarly` | power-libperfmgr/aidl/PowerSessionManager.cpp:478-496 | an event, stale or duplicated, switches a vote off only at or after its current end |
| `VoteTimeouts.ExpiredIsSwitchedOff` | power-libperfmgr/aidl/PowerSessionManager.cpp:482-489 | any event of an expired vote switches it off |
| `VoteTimeouts.SwitchOffAll` | power-libperfmgr/aidl/PowerSessionManager.cpp:434-456 | switching off a list of votes turns off all listed ones, turns none on and moves no end |
| `VoteTimeouts.VoteManager.VoteSet` | power-libperfmgr/aidl/PowerSessionManager.cpp:369-400 | table and scheduled event as the step says |
| `VoteTimeouts.VoteManager.VoteSetCapacity` | power-libperfmgr/aidl/PowerSessionManager.cpp:402-432 | the same for GPU capacity votes |
| `VoteTimeouts.VoteManager.OnEvent` | power-libperfmgr/aidl/PowerSessionManager.cpp:458-506 | table, requeued event and whether to recalculate |
| `VoteTimeouts.VoteManager.DisableBoosts` | power-libperfmgr/aidl/PowerSessionManager.cpp:434-456 | the loop over the six boost votes |
| `BackgroundWorker.AtMostOnce` | power-libperfmgr/aidl/BackgroundWorker.h:106-143 | over every interleaving, duplicated queue entries included, each accepted package is held or was delivered once with its own payload |
| `BackgroundWorker.InsertExact` | power-libperfmgr/aidl/BackgroundWorker.h:106-114 | storing a package loses nothing if and only if the id of the one before has been read, or that one has run |
| `BackgroundWorker.OvertakenIsLost` | power-libperfmgr/aidl/BackgroundWorker.h:106-114 | a package overtaken before any thread read its id never runs in any continuation |
| `BackgroundWorker.NoLossExact` | power-libperfmgr/aidl/BackgroundWorker.h:106-143 | a run loses no package if and only if each package's id is read before the next is stored |
| `BackgroundWorker.DrainedDeliversAll` | power-libperfmgr/aidl/BackgroundWorker.cpp:79-142 | such a run, once drained, has delivered each package exactly once |
| `BackgroundWorker.TwoSchedulesLoseOne` | power-libperfmgr/aidl/BackgroundWorker.h:106-114 | two threads that both store before either reads: both read the second id and the first package is lost |
| `BackgroundWorker.OverlapCanBeSafe` | power-libperfmgr/aidl/BackgroundWorker.h:106-114 | two overlapping schedules, each read before the next stores, that lose nothing |
| `BackgroundWorker.SerialKeepsDeadlines` | power-libperfmgr/aidl/BackgroundWorker.h:106-114 | in a run where each id is read before the next package is stored, every queue entry has the deadline its own package was scheduled with |
| `BackgroundWorker.QueuedUnderExactly` | power-libperfmgr/aidl/BackgroundWorker.h:106-114 | a thread queues, under its own deadline, the package as many after its own as were stored before its read; its own if and only if none was |
| `BackgroundWorker.OwnDeadlinesExactly` | power-libperfmgr/aidl/BackgroundWorker.h:106-114 | all threads of a run read their own ids, and none is left overtaken, if and only if each id is read before the next package is stored |
| `BackgroundWorker.QueueWorker.Store` | power-libperfmgr/aidl/BackgroundWorker.h:108-112 | counter and map after the first section |
| `BackgroundWorker.QueueWorker.Take` | power-libperfmgr/aidl/BackgroundWorker.h:129-143 | the delivery and the map after processing |
| `TimeoutDelivery.MoveKeepsWatch` | power-libperfmgr/aidl/PowerSessionManager.cpp:369-506 | every move of the vote tables together with the worker leaves each active vote an event that is decided on, held by the worker or in hand |
| `TimeoutDelivery.SerialRunsForgetNoVote` | power-libperfmgr/aidl/PowerSessionManager.cpp:395-399 | over every run in which each id is read before the next event is stored, each active vote has an event that will be handled |
| `TimeoutDelivery.LostTimeoutLeavesVoteOn` | power-libperfmgr/aidl/PowerSessionManager.cpp:363-367 | a vote whose timeout was lost stays active in every run that does not remove its session, disable it or set it to an earlier end |
| `TimeoutDelivery.OvertakingLosesExactly` | power-libperfmgr/aidl/BackgroundWorker.h:106-114 | the next event stored loses the timeout in the latest package if and only if no thread has read that package's id |
| `TimeoutDelivery.TwoVotesLoseATimeout` | power-libperfmgr/aidl/BackgroundWorker.h:106-114 | a run from the start in which two votes of a session are set and the first one's timeout is lost |
| `SessionLinks.AddKeepsInverse` | power-libperfmgr/aidl/SessionTaskMap.cpp:29-47 | adding a session, duplicates included, keeps the two maps inverse as multisets |
| `SessionLinks.RemoveKeepsInverse` | power-libperfmgr/aidl/SessionTaskMap.cpp:162-197 | removing a session does |
| `SessionLinks.SweepKeepsInverse` | power-libperfmgr/aidl/PowerSessionManager.cpp:522-540 | the dead-thread loop, which edits both sides separately, does, whichever calls find a dead thread |
| `SessionTaskMap.After` | power-libperfmgr/aidl/SessionTaskMap.cpp:29-265 | after any sequence of operations the maps are inverse, each session owns one value, and no task has an empty list |
| `SessionTaskMap.LinksLeadBack` | power-libperfmgr/aidl/SessionTaskMap.cpp:168-189 | a linked task leads back to its session, so the branches marked inconsistent are never taken |
| `SessionTaskMap.EntersExactly` | power-libperfmgr/aidl/SessionTaskMap.cpp:239-247 | tasks are reported as added if and only if they enter the map |
| `SessionTaskMap.LeavesExactly` | power-libperfmgr/aidl/SessionTaskMap.cpp:254-262 | tasks are reported as removed if and only if they leave the map |
| `SessionTaskMap.ReplaceExact` | power-libperfmgr/aidl/SessionTaskMap.cpp:228-265 | replace gives the session exactly the new tasks and its old fields, and leaves other sessions' entries, values and list order |
| `SessionTaskMap.PauseLeavesTheOthers` | power-libperfmgr/aidl/PowerHintSession.cpp:264-280 | right after pausing, a task's range is that of its other sessions in link order |
| `SessionTaskMap.PausedSessionIsInert` | power-libperfmgr/aidl/PowerHintSession.cpp:264-298 | until resume or setThreads every task's range equals the one of the run without the paused session's votes, flags and updates, and the one of the other sessions alone |
| `SessionTaskMap.LinkTable.AddEntry` | power-libperfmgr/aidl/SessionTaskMap.cpp:29-47 | maps as Add says; false if and only if the session exists |
| `SessionTaskMap.LinkTable.EraseRef` | power-libperfmgr/aidl/SessionTaskMap.cpp:199-226 | maps as Pull says; found if and only if the reference is there |
| `SessionTaskMap.LinkTable.RemoveEntry` | power-libperfmgr/aidl/SessionTaskMap.cpp:162-197 | maps as Remove says |
| `SessionTaskMap.LinkTable.ReplaceTasks` | power-libperfmgr/aidl/SessionTaskMap.cpp:228-265 | maps as Replace says, with the added and removed tasks as domain differences |
| `SessionTaskMap.LinkTable.DropDeadTasks` | power-libperfmgr/aidl/PowerSessionManager.cpp:522-540 | the loop that erases from the list it walks, as Sweep says |
| `Channels.FirstFree` | power-libperfmgr/aidl/ChannelGroup.cpp:81-86 | the first free slot, all before it taken, or the number of slots |
| `Channels.FullExactly` | power-libperfmgr/aidl/ChannelGroup.cpp:87 | the slot scan fails if and only if all slots are occupied |
| `Channels.FirstWithRoom` | power-libperfmgr/aidl/ChannelManager.cpp:66-72 | the lowest group with room |
| `Channels.FreshIdIsFresh` | power-libperfmgr/aidl/ChannelManager.cpp:73-78 | a new group id is new and larger than all others |
| `Channels.OpenKeeps` | power-libperfmgr/aidl/ChannelManager.cpp:56-84 | opening never reaches the fatal path, gives the key a live channel and moves no other |
| `Channels.CloseKeeps` | power-libperfmgr/aidl/ChannelManager.cpp:30-54 | closing keeps the invariant and removes exactly the key; its later failure returns are unreachable |
| `Channels.SlotsAreNotShared` | power-libperfmgr/aidl/ChannelManager.cpp:30-84 | distinct keys have distinct slots, and a group's count is within 1..16 |
| `Channels.After` | power-libperfmgr/aidl/ChannelManager.cpp:30-84 | after any opens and closes the invariant holds (keys and live slots in bijection, counts exact, no empty group) and exactly the keys still open have a channel |
| `Channels.CloseUndoesOpen` | power-libperfmgr/aidl/ChannelManager.cpp:30-84 | opening a new key and closing it restores every map |
| `ChannelManager.CountIsExact` | power-libperfmgr/aidl/ChannelManager.cpp:109-116 | after any run the counts add up to the number of open keys |
| `ChannelManager.PackRoundTrip` | power-libperfmgr/aidl/ChannelManager.h:40-56 | two 32-bit fields are recovered from the shared 64-bit word |
| `ChannelManager.PackInjective` | power-libperfmgr/aidl/ChannelManager.h:40-47 | distinct (tgid, uid) pairs have distinct keys |
| `ChannelManager.MasksAreDisjoint` | power-libperfmgr/aidl/SessionChannel.cpp:23-29 | read and write masks of a group never overlap |
| `ChannelManager.Registry.FindGroup` | power-libperfmgr/aidl/ChannelManager.cpp:66-72 | the search in id order |
| `ChannelManager.Registry.FindSlot` | power-libperfmgr/aidl/ChannelGroup.cpp:81-86 | the slot scan |
| `ChannelManager.Registry.GetOrCreate` | power-libperfmgr/aidl/ChannelManager.cpp:56-84 | maps as Open says, and the key's own live channel |
| `ChannelManager.Registry.CloseChannel` | power-libperfmgr/aidl/ChannelManager.cpp:30-54 | maps as Close says; true if and only if the key had a channel |
| `ChannelManager.Registry.ChannelCount` | power-libperfmgr/aidl/ChannelManager.cpp:109-116 | the sum over the groups |
| `ChannelDispatch.RunEnd` | power-libperfmgr/aidl/ChannelGroup.cpp:180-183 | the end of a run: all before it continue it, the message at it does not |
| `ChannelDispatch.GroupingIsFaithful` | power-libperfmgr/aidl/ChannelGroup.cpp:160-212 | splitting the grouped reports gives exactly the one-by-one dispatch, in order |
| `ChannelDispatch.GatherRun` | power-libperfmgr/aidl/ChannelGroup.cpp:178-193 | the inner loop gathers the maximal run |
| `ChannelDispatch.Handle` | power-libperfmgr/aidl/ChannelGroup.cpp:160-212 | one round: the calls made and the next message to look at |
| `ChannelDispatch.Dispatch` | power-libperfmgr/aidl/ChannelGroup.cpp:160-212 | the loop ends; its calls are one per message or maximal run, and flatten to the one-by-one dispatch of every message whose session resolves |
| `ChannelFlags.DropsLowest` | power-libperfmgr/aidl/ChannelGroup.cpp:140-141 | masking with the word minus one clears the lowest set bit and no other |
| `ChannelFlags.WriteBitsExact` | power-libperfmgr/aidl/ChannelGroup.cpp:136-139 | the specified list holds exactly the set write bits |
| `ChannelFlags.WriteBitsIncrease` | power-libperfmgr/aidl/ChannelGroup.cpp:136-139 | each once, ascending |
| `ChannelFlags.VisitChannels` | power-libperfmgr/aidl/ChannelGroup.cpp:136-141 | the scan visits exactly that list and ends |
| `InteractionHandler.FinalDurationExact` | power-libperfmgr/aidl/InteractionHandler.cpp:150-162 | the duration is the offset request clamped, exactly when the offset makes it non-negative; else the longest, by unsigned wrap-around |
| `InteractionHandler.ElapsedWithinOneMs` | power-libperfmgr/aidl/InteractionHandler.cpp:63-68 | the separate truncations are off by less than 1 ms, and never negative for ordered times |
| `InteractionHandler.EveryInterleaving` | power-libperfmgr/aidl/InteractionHandler.cpp:96-219 | up to Exit, perf lock and release strictly alternate, the lock is held exactly in INTERACTION and WAITING, and WAITING means an empty event fd |
| `InteractionHandler.AcquireIsCovered` | power-libperfmgr/aidl/InteractionHandler.cpp:172-196 | after an Acquire, taken or skipped, the lock is held and the hint in force lasts as long as asked to within 1 ms |
| `InteractionHandler.EndNeverRecedes` | power-libperfmgr/aidl/InteractionHandler.cpp:172-196 | an Acquire during an interaction never brings its end forward by 1 ms or more |
| `InteractionHandler.ExitLeaksExactly` | power-libperfmgr/aidl/InteractionHandler.cpp:120-134 | Exit leaves the perf lock taken if and only if an interaction was going on |
| `InteractionHandler.HeldExactly` | power-libperfmgr/aidl/InteractionHandler.cpp:120-134 | a run up to Exit leaves the lock taken if and only if some Acquire has not been followed by the end of an undisturbed wait |
| `InteractionHandler.ExitNeverReleases` | power-libperfmgr/aidl/InteractionHandler.cpp:266-281 | and the thread then ends without releasing it |
| `InteractionHandler.BoostHandler.Initialize` | power-libperfmgr/aidl/InteractionHandler.cpp:96-118 | state after Init and its result |
| `InteractionHandler.BoostHandler.AcquireBoost` | power-libperfmgr/aidl/InteractionHandler.cpp:150-196 | state after Acquire and the direct hint of the fallback |
| `InteractionHandler.BoostHandler.ReleaseBoost` | power-libperfmgr/aidl/InteractionHandler.cpp:198-211 | state after Release |
| `PidController.BatchExact` | power-libperfmgr/aidl/PowerHintSession.cpp:70-111 | the error sum is that of the P window, the derivative sum telescopes to last error minus the error before the D window, the integral is the clamped fold over the I window and lies in its bounds |
| `PidController.IntegralIsMonotone` | power-libperfmgr/aidl/PowerHintSession.cpp:104-108 | a larger integral before a batch is no smaller after it |
| `PidController.UnclampedIntegral` | power-libperfmgr/aidl/PowerHintSession.cpp:104-108 | while no bound bites the integral is the plain sum |
| `PidController.DivisorsExact` | power-libperfmgr/aidl/PowerHintSession.cpp:79-87 | the window divisors are positive; the time divisor is non-zero if and only if the target is at least 100 us |
| `PidController.ModerateFactorInRange` | power-libperfmgr/aidl/PowerHintSession.cpp:368-409 | after any observations and resets, MODERATE comes with a janky factor in [0, 1) and a non-zero divisor |
| `PidController.ActivePuInRange` | power-libperfmgr/aidl/PowerHintSession.cpp:113-127 | the gain in force lies between the severe and the plain one |
| `PidController.NextControlExact` | power-libperfmgr/aidl/PowerHintSession.cpp:493-530 | the next control value lies between active floor and max(floor, ceiling), is the sum when that fits, and the active bounds stay in their ranges |
| `PidController.PidState.Convert` | power-libperfmgr/aidl/PowerHintSession.cpp:70-145 | the loop: fields and output as the functions say, integral in bounds |
| `Lockout.EveryRun` | biometrics/fingerprint/aidl/Session.cpp:269-307 | over every interleaving: permanent if and only if 20 failures, a sleeping timer during a permanent lockout is aborted, and at most one timer sleeps |
| `Lockout.PermanentExactly` | biometrics/fingerprint/aidl/LockoutTracker.cpp:17-46 | over every run the lockout is permanent if and only if 20 attempts failed since the last success or reset |
| `Lockout.PermanentIsLeftOnlyBy` | biometrics/fingerprint/aidl/Session.cpp:119-124 | a step leaves a permanent lockout if and only if it is a success or a reset |
| `Lockout.TimedHasATimer` | biometrics/fingerprint/aidl/Session.cpp:269-285 | every failure or lookup that finds a timed lockout reports it and has one timer sleeping |
| `Lockout.TimerEndsExactly` | biometrics/fingerprint/aidl/Session.cpp:302-307 | an expiring timer ends a timed lockout if and only if it was not aborted |
| `Lockout.LeftOverAbort` | biometrics/fingerprint/aidl/Session.cpp:269-307 | from any permanent lockout without a timer, a lookup, a reset and five failures give a timer that expires without ending its lockout |
| `Lockout.PermanentWithoutTimer` | biometrics/fingerprint/aidl/Session.cpp:269-307 | a run from a fresh session to such a state, the abort mark already set |
| `Lockout.SilencedTimerIsReached` | biometrics/fingerprint/aidl/Session.cpp:269-307 | a run from a fresh session to a timed lockout whose timer will not end it |
| `Lockout.AbortMarkExact` | biometrics/fingerprint/aidl/Session.cpp:269-307 | over every run the mark is set if and only if a lookup found 20 failures or a reset found a sleeping timer, and no timer expired since |
| `Lockout.OwnTimerExactly` | biometrics/fingerprint/aidl/Session.cpp:281-306 | over every run the first timer that expires in a timed lockout was started during it, by the failure that began it, if and only if no timer was asleep then; either way it ends the lockout if and only if it was not aborted |
| `Lockout.OldTimerEndsNewLockout` | biometrics/fingerprint/aidl/Session.cpp:338-352 | a run from a fresh session in which the timer of an earlier lockout, left asleep by a success, ends the next one |
| `Lockout.LockoutSession.AddFailedAttempt` | biometrics/fingerprint/aidl/LockoutTracker.cpp:25-35 | tracker after a failure |
| `Lockout.LockoutSession.CheckSensorLockout` | biometrics/fingerprint/aidl/Session.cpp:269-285 | state and callbacks of a lookup |
| `Lockout.LockoutSession.OnAuthenticated` | biometrics/fingerprint/aidl/Session.cpp:338-352 | state and callbacks of an authentication result |
| `Lockout.LockoutSession.OnTimerExpired` | biometrics/fingerprint/aidl/Session.cpp:302-307 | state and callbacks of an expiring timer |

## Left out

- Services, binder and HIDL glue, `service.cpp` programs, property reads, sysfs writes, tracing and dump methods: input and output only.
- `radio`, `usb`, `vibrator`, `sensors`, `livedisplay`, `powershare`, `health`, `fastboot`, `ir`, `gamekeys`, `leds`, `light`: thin wrappers or small tables that would only add easy members.
- GPU capacity arithmetic, session capacity maxima and physical-quantity types: float rounding dominates what could be said.
- Camera provider, device and conversion code: registration and field copying. Fences, native handles and metadata queues are not part of this model.
- Foreign calls (the camera device, the handle importer, scheduling calls, message queues, hint manager, clocks): their results are parameters of the steps.
- The give-up after one second in the camera callback, which drops results, and physical-camera metadata, which the batched path does not keep: outside the conservation law.
- Integer width: counters, sums and frame numbers are unbounded, except in the interaction duration, packed keys and flag words, where 32-bit arithmetic is written out.
- Condition-variable timing and liveness: only safety and event order. A dispatch that is interrupted by the destruction of its channel group is not modelled.
- Early returns for broken physical settings in a capture request leave inflight keys behind; inflight buffers are not part of this model.
- SessionWindow.EveryRunTracks: game metrics require room for three records, because the code reads three frames back.
- SessionWindow.GameRunKeepsOffset: holds until the next reset; SessionFps.ResetRunOffset says what a reset changes.
- VoteTimeouts.NoVoteIsForgotten: takes every event handed to the worker as pending; TimeoutDelivery.SerialRunsForgetNoVote and TimeoutDelivery.LostTimeoutLeavesVoteOn say when the worker keeps it and what happens otherwise.
- VoteTimeouts.EventsStayInTime: excludes the updates of durations that UpdateDurationExact shows to break it.
- BackgroundWorker.AtMostOnce: covers one template worker and takes the unlocked read of the counter as atomic; entries of other workers in the shared pool and the removal of callbacks are not modelled.
- BufferCache.ConfigureKeeps: the status check before the lock and the locked section are one step, so a close between the two is not modelled.
- BatcherTheorems.ExactlyOnce: in its runs buffers come one per frame and in frame order, as the header of the session class asks of the camera; batches are registered first and with growing frame numbers, batched stream ids are distinct, partial indices stay within the declared number, no metadata follows the last frame's final partial result, no shutter follows the last frame's, and an error pops only what is queued and finds every stream that still has a buffer among those batched now. The order of results and shutters is asked for batches in flight only. BatcherWitnesses shows what happens otherwise.
- InteractionHandler.EveryInterleaving: runs end at Exit, and the clock does not go back.
- PidController.PidState.Convert: requires a target of at least 100 us, because the code divides by zero below that; gains are reals, so rounding of doubles is not modelled.
- PidController.NextControlExact: assumes that the configured floor and ceiling ranges are not reversed.
- Channels.After: group ids are unbounded; the code would overflow after 2^31 new groups.
- Lockout.EveryRun: whether the lockout time has elapsed is a parameter, and the mode starts at none, which the original leaves uninitialised.
