# eKuiper: a verified model of its stream-processing core

eKuiper runs SQL rules over streams on the edge. This project models the parts of it that are hardest to get right and
proves what they promise, for every input and every run:

- **Windows.** The event-time window operator tracks a timestamp per topic, sends watermarks into its own input, computes
  the next window end incrementally and compacts its buffer in place. `EventRefinement` proves that every run emits
  exactly the windows of a batch definition over the accepted tuples; `EventBoundary` proves exactly when that fails, and
  where windows start; `WatermarkQueue` which watermarks are queued. `Sessions`, `SessionEnds` and `SessionRefinement` do
  the same for session windows, whose batch definition cuts sessions off the sorted sequence of all accepted tuples;
  `CountWindows` for count windows. `WindowOperator` is the object itself.
- **Checkpoints.** `Barriers.dfy` holds the barrier tracker and the aligner, `Checkpoints` the coordinator, responder,
  state store and time-series table as one system of interleaved steps with restarts. `CheckpointProgress` tells from the
  events alone what becomes of every checkpoint; `CheckpointService` holds the objects.
- **Queries.** `Joins` proves the join loops against the relational definition, `JoinMeaning` reads that definition row by
  row, `Filters` is the filter. `Planner`, `PushDownMeaning`, `PushDownLimits`, `OuterJoins` and `TableJoins` give plans a
  meaning and prove exactly when predicate push-down keeps it.
- **Parser.** `TokenRing` proves that the three-slot push-back ring is a cursor; `Expressions`, `ExpressionTrees` and
  `ExpressionParser` that the tree-rotating loop builds the one tree its tokens stand for; `GroupShapes` says what calls
  and CASE expressions look like. `FieldTypes`, `FieldGrammar` and `FieldTypeParser` prove that printed field types are
  read back, and what is accepted at all.
- **Sink cache.** `SinkCache` and `SinkCacheService` prove that nothing accepted is lost while it is outstanding.

Most components come twice: as a function or state machine on values, about which the theorems are proved, and as a
class or method in the form of the program (fields, loops, arrays, heap nodes), proved to follow it step by step.
`dafny verify dfyconfig.toml` checks everything.

## What the code does not do

Some expected properties are false of the code. Each has a concrete witness, and a condition that holds if and only if
the property does.

- `track` lets a tuple through whose timestamp equals the last watermark. If that is also the last window end scanned,
  the tuple is in no window: `EventBoundary.RefinesExactlyWithoutBoundary` and `EventBoundary.BoundaryOccurs`, for
  sessions `SessionRefinement.SessionsRefineExactly` and `SessionRefinement.SessionBoundaryOccurs`.
- A chained INNER join adds the left tuples for the first match only: `Joins.ChainedInnerExactly` and
  `Joins.ChainedSecondMatchIsBare`. A CROSS join with an empty right side yields the bare left rows:
  `Joins.CrossExactly` and `Joins.CrossWithNothingIsBare`.
- The second pass of a join align offers what the sources left to a child that already carries a filter. Behind a window
  that takes no filter, a condition on the stream ends up on the table: `PushDownLimits.StreamTablePreservedExactly` and
  `PushDownLimits.ConditionsOnBothSidesAreMixedUp`.
- Push-down through an outer join filters the side that the join fills up: `OuterJoins.OuterJoinPreservedExactly` and
  `PushDownLimits.LeftJoinPushChangesRows`. With a table both can happen: `TableJoins.OuterTablePreservedExactly`.
- A barrier of a later checkpoint skips an open alignment but keeps its buffer, so that checkpoint can miss items from
  before its barriers: `Aligner.ConsistentCutExactly` and `Aligner.SkippedAlignmentLosesItem`.
- etc/kuiper.yaml says that `cacheTriggerCount` saves a cache that never passes `cacheThreshold`. The tick counter starts
  over at the threshold, so with the shipped values (10 and 15) it never does: `SinkCache.QuietRunIsSaved` and
  `SinkCache.ShippedConfigNeverSaves`.
- A second completion of an old emission can drop a new item that took over its index:
  `SinkCache.ExactWithoutStaleCompletions` and `SinkCache.SecondCompletionDropsAnItem`.
- parseStreamArrayType returns no type and no error for an array without parentheses or with a leading comma, and a
  struct without fields needs WITH: `FieldTypes.PrintedTypeIsReadBack` shuts out exactly these types; see
  `FieldTypes.EmptyStructIsNotRead` and `FieldTypes.ArrayOfNothingIsTaken`.

## Assumptions

- Event-time windows: timestamps and the start time are positive, tolerance is not negative, emitters are among the
  topics, topics are distinct, and timestamps stay one window step below the largest 64-bit value.
- Checkpoints: tick times are positive and increase, storage works, and a task's snapshot is saved before its next
  trigger. Each step is atomic. Checkpoint ids, being times, are positive.
- Push-down: conditions are conjunctions of boolean-valued atoms, an atom depends on the tuples of the streams it names
  only, or on the whole row if a field in it is unqualified, and above a join field references are qualified.

## Model

| member | source | states |
|---|---|---|
| `Watermarks.WatermarkIsLowest` | internal/topo/node/watermark.go:78-119 | once every topic has been seen, the last watermark is max(0, least over the topics of the largest timestamp seen, minus the tolerance), whatever the order of the tuples and whether watermarks were dropped |
| `Watermarks.WatermarkMonotone` | internal/topo/node/watermark.go:92-106 | over any sequence of tuples the last watermark never decreases |
| `Watermarks.AcceptedNotLate` | internal/topo/node/watermark.go:78-90 | what is accepted after a prefix of the tuples is never older than the watermark reached by that prefix |
| `Watermarks.LatestIsMaximum` | internal/topo/node/watermark.go:80-83 | the timestamp remembered for a topic is the largest one received from it, or zero |
| `Watermarks.ComputedFromLowest` | internal/topo/node/watermark.go:108-119 | the loop over the topics gives the least remembered timestamp minus the tolerance |
| `Watermarks.AllSeen` | internal/topo/node/watermark.go:108-112 | comparing map size and number of topics decides whether every topic has been seen |
| `EventRefinement.EarliestIsLeast` | internal/topo/node/watermark.go:275-283 | the earliest timestamp is not above any buffered one in the range, and unless it is the largest 64-bit value it is one of them |
| `EventWindows.Drain` | internal/topo/node/watermark.go:221-243 | the loop over window ends terminates and only appends to the emitted windows |
| `EventWindows.WalkHolds` | internal/topo/node/watermark.go:143-177 | over a sorted buffer the walk is either still inside one session, or has stopped at an end that cuts off a session whose gaps and span are bounded |
| `EventWindows.SessionScanShrinks` | internal/topo/node/watermark.go:221-243 | the session end is only used on a non-empty buffer and each scan takes at least one tuple out, so the loop terminates |
| `EventWindows.Run` | internal/topo/node/watermark.go:179-272 | every run from a fresh operator stays in range: positive buffered timestamps, ends below the largest 64-bit value |
| `EventRefinement.NextEndOk` | internal/topo/node/watermark.go:122-141 | no due window lies between the last scanned end and the computed one, and the computed end is an end the batch definition knows |
| `EventRefinement.ScanOk` | internal/topo/node/window_op.go:386-463 | one scan at such an end keeps the emitted windows equal to the batch definition and keeps every accepted tuple a later window needs |
| `EventRefinement.DrainOk` | internal/topo/node/watermark.go:221-243 | after a watermark has been processed, emitted windows and buffer agree with the batch definition up to it, and the remembered next end lies beyond it |
| `EventRefinement.RunKeepsInv` | internal/topo/node/watermark.go:179-272 | every reachable state of a run without a boundary tuple satisfies the refinement invariant |
| `EventRefinement.EventWindowsRefineBatch` | internal/topo/node/watermark.go:122-256 | tumbling, hopping and sliding: over any run without a boundary tuple, with any watermarks dropped, the emitted windows are exactly the due windows of the accepted tuples up to the last scanned end, each once, in order and with exactly its tuples; the buffer holds exactly the accepted tuples not yet expired |
| `EventRefinement.WatermarkCompletesBatch` | internal/topo/node/watermark.go:216-256 | processing a watermark W makes the emitted windows exactly all due windows with an end up to W |
| `EventBoundary.RefinesExactlyWithoutBoundary` | internal/topo/node/watermark.go:85-90 | the operator agrees with the batch definition if and only if no accepted tuple is stamped exactly with the last scanned window end |
| `EventBoundary.BoundaryOccurs` | internal/topo/node/watermark.go:85-90 | a concrete run in which such a tuple is accepted, for any topic name, and the operator no longer agrees with the batch definition |
| `EventBoundary.BoundaryStaysMissed` | internal/topo/node/watermark.go:78-90 | after a boundary tuple some passed window stays incomplete for the rest of the run |
| `EventBoundary.BatchIsSound` | internal/topo/node/window_op.go:399-446 | read pointwise, the batch definition has strictly increasing ends, each window holds exactly the accepted tuples of its range, and starts where it should: a sliding window its length before its end, a tumbling one at the end before it, a hopping one an interval before that |
| `EventBoundary.BatchIsComplete` | internal/topo/node/window_op.go:399-446 | and no end with an accepted tuple in range is left out |
| `EventBoundary.WindowsStartRight` | internal/topo/node/window_op.go:425-446 | over every run, with or without a boundary tuple: sliding windows start their length before their end, tumbling windows where the window before ended (the first one at the start time), hopping windows one interval before that |
| `WatermarkQueue.QueueIsRaised` | internal/topo/node/watermark.go:92-106 | over every run the queue holds exactly the watermarks raised while there was room and not reached yet, each with its value, in order |
| `WatermarkQueue.EmptyQueueCompletesBatch` | internal/topo/node/watermark.go:92-106 | if there was always room and the queue is empty, every due window before the last watermark has been emitted |
| `Sessions.SessionRun` | internal/topo/node/watermark.go:143-256 | in every run of a session window each emitted window is one session: sorted, gaps at most the interval, up to the window end, span at most twice the length when the interval is at most the length; it ends at the timeout after its last tuple or at a tick more than a length after its first one, and an accepted tuple after that end closed it; emitted plus buffered tuples are exactly the accepted ones |
| `Sessions.FirstSession` | internal/topo/node/watermark.go:143-177 | the computed end cuts a non-empty proper prefix off the sorted buffer; that prefix is a session, ended by a tick if the flag says so and by the timeout otherwise |
| `SessionEnds.SessionEndExactly` | internal/topo/node/watermark.go:143-177 | the session ends at the first tuple that is more than the interval after the one before it, or has the tick reached before it when that is more than a length after the first tuple; the end is the tick if it comes before the timeout, else the timeout |
| `SessionEnds.NoEndIsComputed` | internal/topo/node/watermark.go:143-177 | if there is no such tuple no end is computed |
| `SessionEnds.TickReached` | internal/topo/node/watermark.go:149-171 | the tick reached in a session is the first multiple of the length at or after its last tuple, if the interval is not longer than the length |
| `Sessions.ScanTakesSession` | internal/topo/node/window_op.go:386-446 | a scan at that end emits one window holding the session and keeps all other tuples |
| `Sessions.WatermarkLeavesOneSession` | internal/topo/node/watermark.go:221-243 | after a processed watermark the buffered tuples up to it are one open session: no passed timeout between neighbours, no more than two lengths |
| `SessionRefinement.EndIsStable` | internal/topo/node/watermark.go:143-177 | a tuple after a determined session end never moves that end, wherever it falls among the ticks |
| `SessionRefinement.SessionsRefineBatch` | internal/topo/node/watermark.go:143-256 | over any run without a boundary tuple the emitted windows are exactly the first sessions cut, one after the other, off the sorted sequence of all accepted tuples, whatever the order of arrival; the buffer is exactly the rest |
| `SessionRefinement.WatermarkCompletesSessions` | internal/topo/node/watermark.go:216-256 | processing a watermark W makes the emitted windows exactly all sessions that end by W |
| `SessionRefinement.SessionsRefineExactly` | internal/topo/node/watermark.go:78-90 | the emitted windows are those sessions if and only if no accepted tuple is stamped exactly with the last session end |
| `SessionRefinement.BoundaryStaysMissed` | internal/topo/node/watermark.go:78-90 | after such a tuple some passed session stays incomplete for the rest of the run |
| `SessionRefinement.SessionBoundaryOccurs` | internal/topo/node/watermark.go:78-90 | a concrete run with tuples stamped 1, 8 and 6 in which it happens |
| `WindowOperator.Compact` | internal/topo/node/window_op.go:399-437 | the in-place loop leaves the kept tuples, in order, at the front of the buffer and collects the tuples of the window by emitter |
| `WindowOperator.EventWindowOperator.constructor` | internal/topo/node/watermark.go:179-190 | a fresh operator is the initial state of the machine |
| `WindowOperator.EventWindowOperator.ComputeWatermark` | internal/topo/node/watermark.go:108-119 | the loop computes the specified watermark |
| `WindowOperator.EventWindowOperator.Track` | internal/topo/node/watermark.go:78-106 | updates topic map, watermark and queue as specified |
| `WindowOperator.EventWindowOperator.GetEarliestEventTs` | internal/topo/node/watermark.go:275-283 | the loop finds the specified earliest timestamp |
| `WindowOperator.EventWindowOperator.GetNextWindow` | internal/topo/node/watermark.go:122-141 | returns the specified next end |
| `WindowOperator.EventWindowOperator.ScanAt` | internal/topo/node/window_op.go:386-446 | the new state of the object is the specified scan of its old state |
| `WindowOperator.EventWindowOperator.Emit` | internal/topo/node/window_op.go:438-446 | appends one window with the specified range and sorted content |
| `WindowOperator.EventWindowOperator.WalkSession` | internal/topo/node/watermark.go:143-177 | the loop over the sorted buffer computes the specified session end and tick flag |
| `WindowOperator.EventWindowOperator.GetNextSessionWindow` | internal/topo/node/watermark.go:143-177 | sorts the buffer and returns the specified session end; an empty buffer is never read |
| `WindowOperator.EventWindowOperator.OnTuple` | internal/topo/node/watermark.go:245-256 | a tuple takes the object from one machine state to the next |
| `WindowOperator.EventWindowOperator.DrainWindows` | internal/topo/node/watermark.go:221-243 | the watermark loop refines the specified drain |
| `WindowOperator.EventWindowOperator.DrainSessions` | internal/topo/node/watermark.go:221-243 | the session loop refines the specified session drain, and terminates |
| `WindowOperator.EventWindowOperator.OnWatermark` | internal/topo/node/watermark.go:216-244 | a watermark takes the object from one machine state to the next, so all run results hold of the object |
| `WindowSets.Add` | internal/xsql/collections.go:262-279 | the loop adds the tuple to the group of its emitter, or opens one |
| `WindowSets.Find` | internal/xsql/collections.go:233-240 | the loop returns the group of the source |
| `WindowSets.Sort` | internal/xsql/collections.go:282-290 | every group is replaced by its stable sort |
| `Collections.GroupedBySrc` | internal/xsql/collections.go:233-279 | adding tuples one by one and reading a source gives that source's tuples in arrival order |
| `Collections.StableSortCorrect` | internal/xsql/collections.go:282-290 | the result is sorted by time and tuples of equal time keep their order |
| `Collections.PackagedBySrc` | internal/xsql/collections.go:233-290 | a packaged window gives back for each source its tuples sorted by time, and holds no other tuples |
| `CountWindows.WindowsAt` | internal/topo/node/window_op.go:261-283 | a window is emitted at message k exactly when k is a multiple of the interval and k >= length; for every emitter it holds that emitter's tuples among messages k-length+1..k in arrival order, and length tuples in all |
| `CountWindows.Next` | internal/topo/node/window_op.go:261-283 | how windows and buffer follow from one message, for any interval, also above the length |
| `CountWindows.Buffer` | internal/topo/node/window_op.go:379-384 | the buffer is the tail of the message history and never holds more than length-1 plus the messages since the last trigger |
| `CountWindows.TupleList.NewTupleList` | internal/topo/node/window_op.go:341-349 | a list with its index at the first window, or an error exactly for a size below one or no tuples |
| `CountWindows.TupleList.NextCountWindow` | internal/topo/node/window_op.go:366-377 | the next window groups the last tuples of the list |
| `CountWindows.CountWindowOperator.OnTuple` | internal/topo/node/window_op.go:261-283 | after every message the emitted windows are those of the whole history and the buffer is its specified tail; a size below one is counted as an error |
| `CountWindows.CountWindowOperator.Trigger` | internal/topo/node/window_op.go:261-283 | closes a window as specified and resets the count |
| `CountWindows.CountWindowOperator.CloseWindow` | internal/topo/node/window_op.go:268-283 | the loop over the tuple list yields the one window that fits, and the buffer becomes its rest |
| `Tracker.TrackerIsSafe` | internal/topo/checkpoint/barrier_handler.go:54-83 | for FIFO channels with increasing ids: each id is attempted at most once, only after every channel sent it, in strictly increasing order; counts are those of the senders, between 1 and inputCount-1; and with triggers succeeding only ids above the last one are pending |
| `Tracker.TrackerAttemptsExactly` | internal/topo/checkpoint/barrier_handler.go:54-83 | for FIFO channels with increasing ids an id is attempted exactly when every channel has sent it: dropping older ids skips none |
| `Tracker.TrackerStepExactly` | internal/topo/checkpoint/barrier_handler.go:54-83 | one more barrier makes an attempt, with its own outcome, exactly if it is the last one of its checkpoint |
| `Tracker.PendingExactly` | internal/topo/checkpoint/barrier_handler.go:64-82 | with two or more channels a checkpoint is remembered exactly if some channel sent it and no checkpoint from it on was triggered successfully |
| `Tracker.DropUpTo` | internal/topo/checkpoint/barrier_handler.go:74-79 | the deleting loop leaves exactly the ids above the triggered one |
| `Tracker.BarrierTracker.Process` | internal/topo/checkpoint/barrier_handler.go:41-83 | the object follows the specified step |
| `Aligner.AlignerConserves` | internal/topo/checkpoint/barrier_handler.go:104-172 | for every sequence of items and barriers, with skipped alignments and failed triggers: items let through, buffered and handed to the output are together exactly the items received |
| `Aligner.TriggersAfterAllBarriers` | internal/topo/checkpoint/barrier_handler.go:121-172 | with two or more inputs successful triggers strictly increase, and each came after the barrier of every channel |
| `Aligner.OneInputTriggersExactly` | internal/topo/checkpoint/barrier_handler.go:124-131 | with one input a checkpoint is triggered if and only if a barrier of it came, above zero and above all before it, whose trigger succeeds |
| `Aligner.TriggersExactly` | internal/topo/checkpoint/barrier_handler.go:132-172 | with several inputs an event triggers exactly if it is the barrier that completes a checkpoint not triggered yet, none of a later one having come; then the channels are released and the buffered items handed back in order, and at no other time |
| `Aligner.ItemPassesExactly` | internal/topo/checkpoint/barrier_handler.go:104-119 | an item is buffered exactly if its channel is past the barrier of the latest checkpoint and that was not triggered, and let through otherwise |
| `Aligner.OneInputPasses` | internal/topo/checkpoint/barrier_handler.go:104-119 | with one input every item is let through |
| `Aligner.AlignerCut` | internal/topo/checkpoint/barrier_handler.go:104-181 | an item of a channel that already sent barrier n is let through only if n was triggered or a later barrier has arrived |
| `Aligner.ConsistentCutExactly` | internal/topo/checkpoint/barrier_handler.go:104-181 | when a checkpoint is about to be triggered, the items held back are exactly those past their channel's barrier of it, if and only if the buffer was empty when the barrier came that made it current |
| `Aligner.SkippedAlignmentLosesItem` | internal/topo/checkpoint/barrier_handler.go:134-140 | a concrete run: an alignment is skipped by a later barrier, its buffer stays, and an item from before its channel's barrier is missing when the later checkpoint triggers |
| `Aligner.WaitingSince` | internal/topo/checkpoint/barrier_handler.go:104-181 | while a checkpoint is current and not triggered, an item starts to wait exactly if its channel has sent the barrier, and nothing that waits is released |
| `Aligner.WaitingIsBuffer` | internal/topo/checkpoint/barrier_handler.go:104-119 | the positions that wait are those of the buffered items, in order |
| `Aligner.OpeningExists` | internal/topo/checkpoint/barrier_handler.go:191-196 | every checkpoint that is current was made so by one barrier |
| `Aligner.RunAligned` | internal/topo/checkpoint/barrier_handler.go:121-196 | at every point the blocked channels have sent the barrier of the current alignment, and a channel past barrier n is blocked unless n was triggered or superseded |
| `Aligner.BarrierAligner.OnEvent` | internal/topo/checkpoint/barrier_handler.go:104-119 | the object follows the specified step: pass, buffer or process |
| `Aligner.BarrierAligner.OnBarrier` | internal/topo/checkpoint/barrier_handler.go:121-181 | the object follows the specified handling of a barrier: one input, same, later or stale alignment |
| `Checkpoints.CoordinatorIsSafe` | internal/topo/checkpoint/coordinator.go:172-282 | over any run of ticks, saves, failures, signals, clean-ups and restarts: completed ids strictly increase and were never cancelled, every id in progress is above the last completed one, the coordinator remembers the last three completed since the restart in order |
| `Checkpoints.CompletionIsDurable` | internal/topo/checkpoint/coordinator.go:205-277 | a checkpoint completes only when an acknowledgement is delivered and every task has acknowledged it; the persisted row is what the tasks saved and has an entry for every task, so the key guard drops none |
| `Checkpoints.AckCompletes` | internal/topo/checkpoint/coordinator.go:205-212 | the completing acknowledgement is the last one waited for |
| `Checkpoints.OnlyAcksComplete` | internal/topo/checkpoint/coordinator.go:194-219 | no other step completes a checkpoint |
| `Checkpoints.RestartRestoresLastCompleted` | internal/topo/state/kv_store.go:63-140 | after any run, with any number of clean-ups and earlier restarts, a restart restores exactly the last completed checkpoint, and an operator reads the state it had saved for it |
| `Checkpoints.TableFindsLast` | internal/pkg/tskv/sqlite.go:117-169 | the largest key in the table is the last completed id, and it has a row |
| `CheckpointProgress.AcknowledgedIsDone` | internal/topo/checkpoint/coordinator.go:194-282 | progress, from the events alone: a checkpoint that was started, and neither cancelled nor lost in a restart, is completed once the acknowledgement of every task has been delivered, unless a later one was completed before |
| `CheckpointProgress.StartedIsOnItsWay` | internal/topo/checkpoint/coordinator.go:172-282 | until then it is in progress and waits for exactly the tasks whose acknowledgement was not delivered since it started |
| `CheckpointProgress.InProgressWasStarted` | internal/topo/checkpoint/coordinator.go:172-282 | and nothing else is in progress |
| `CheckpointProgress.CompletionKeepsYounger` | internal/topo/checkpoint/coordinator.go:268-276 | a completion leaves every younger checkpoint in progress with the tasks it still waits for |
| `CheckpointProgress.CompletedWithItsStates` | internal/topo/checkpoint/coordinator.go:251-277 | every completed checkpoint was completed by the delivery of an acknowledgement, with what the tasks had saved for it by then |
| `CheckpointProgress.RestartReadsSaved` | internal/topo/state/kv_store.go:63-136 | after any run a restart gives every task what the events say it had saved for the last completed checkpoint |
| `CheckpointProgress.LastThreeRemembered` | internal/topo/checkpoint/coordinator.go:72-77 | the last three checkpoints completed since the restart are remembered; the store keeps the restored one as long as there are fewer |
| `CheckpointProgress.CompletionForgets` | internal/topo/state/kv_store.go:97-102 | a completion forgets the snapshots of the checkpoints remembered no longer, and of no others |
| `CheckpointProgress.StateIsReadable` | internal/topo/state/kv_store.go:114-136 | reading a state fails exactly if the last remembered checkpoint is not in memory, which never happens |
| `CheckpointProgress.AppendKeepsRows` | internal/pkg/tskv/sqlite.go:73-95 | whatever is appended, no row is lost or overwritten and the last key stays the greatest |
| `CheckpointProgress.CleanUpLeavesRemembered` | internal/topo/state/kv_store.go:138-140 | a clean-up leaves the rows of the remembered checkpoints and no others |
| `CheckpointProgress.HundredthTickCleans` | internal/topo/checkpoint/coordinator.go:172-192 | every hundredth tick since the restart cleans up, and no other |
| `CheckpointProgress.SignalsAre` | internal/topo/checkpoint/responder.go:55-76 | the signals under way are those sent and not delivered, in order |
| `CheckpointProgress.SavedIs` | internal/topo/state/kv_store.go:74-88 | the snapshot of a checkpoint holds what each task saved last for it |
| `Checkpoints.StepKeeps` | internal/topo/checkpoint/coordinator.go:172-282 | every step keeps the system invariant |
| `Checkpoints.RunKeeps` | internal/topo/checkpoint/coordinator.go:172-282 | hence every reachable state satisfies it |
| `Checkpoints.CompleteKeeps` | internal/topo/checkpoint/coordinator.go:251-282 | completion keeps it: history, memory, table and coordinator |
| `Checkpoints.CleanKeeps` | internal/topo/state/kv_store.go:138-140 | a clean-up deletes no row a restart could need |
| `Checkpoints.SaveKeeps` | internal/topo/checkpoint/responder.go:55-76 | saving and acknowledging keeps memory and history in step |
| `Checkpoints.LastKey` | internal/pkg/tskv/sqlite.go:157-169 | the largest key, zero for an empty table |
| `CheckpointService.Greatest` | internal/pkg/tskv/sqlite.go:157-169 | the scan finds the largest key |
| `CheckpointService.SqliteTskv.Append` | internal/pkg/tskv/sqlite.go:73-95 | a row is added exactly when the key is above the last one |
| `CheckpointService.SqliteTskv.DeleteBefore` | internal/pkg/tskv/sqlite.go:131-135 | exactly the rows below the key go |
| `CheckpointService.KVStore.constructor` | internal/topo/state/kv_store.go:50-72 | opening restores the last row as the only remembered checkpoint |
| `CheckpointService.KVStore.SaveState` | internal/topo/state/kv_store.go:74-88 | adds the operator's state to the snapshot of the checkpoint |
| `CheckpointService.KVStore.SaveCheckpoint` | internal/topo/state/kv_store.go:90-112 | writes the snapshot, remembers the last three ids and evicts the snapshots of older ones; fails exactly if nothing was saved |
| `CheckpointService.KVStore.Evict` | internal/topo/state/kv_store.go:97-102 | the loop forgets the oldest ids until three are left, and their snapshots |
| `CheckpointService.KVStore.GetOpState` | internal/topo/state/kv_store.go:114-136 | the state of the operator in the last remembered checkpoint, nothing if there is none, an error exactly if that checkpoint is not in memory |
| `CheckpointService.KVStore.Clean` | internal/topo/state/kv_store.go:138-140 | deletes rows older than the first remembered checkpoint |
| `CheckpointService.CheckpointCoordinator.NewPendingCheckpoint` | internal/topo/checkpoint/coordinator.go:31-48 | a new checkpoint waits for every task |
| `CheckpointService.CheckpointCoordinator.OnTick` | internal/topo/checkpoint/coordinator.go:172-192 | the object follows the specified tick, with the clean-up every hundred ticks |
| `CheckpointService.CheckpointCoordinator.Cancel` | internal/topo/checkpoint/coordinator.go:241-249 | the checkpoint is dropped if it was in progress |
| `CheckpointService.CheckpointCoordinator.DropUpTo` | internal/topo/checkpoint/coordinator.go:268-276 | the loop drops the checkpoint and every older one in progress |
| `CheckpointService.CheckpointCoordinator.Complete` | internal/topo/checkpoint/coordinator.go:251-282 | the object follows the specified completion |
| `CheckpointService.CheckpointCoordinator.OnAck` | internal/topo/checkpoint/coordinator.go:205-212 | the object follows the specified acknowledgement |
| `CheckpointService.CheckpointCoordinator.Respond` | internal/topo/checkpoint/responder.go:55-76 | save, then acknowledge or decline |
| `CheckpointService.CheckpointCoordinator.OnSignal` | internal/topo/checkpoint/coordinator.go:194-219 | the object follows the specified delivery of a signal |
| `Joins.EvalSet` | internal/topo/operator/join_operator.go:131-194 | for INNER, LEFT, RIGHT and FULL: every matching pair once, plus each unmatched left and right tuple once as the join type asks, and nothing else (section 7.5 of ISO/IEC 9075:1992); an error exactly if ON fails on some pair; CROSS with an empty right side yields the bare left tuples; the rows are, in order, those that plans evaluate to |
| `Joins.EvalJoinSets` | internal/topo/operator/join_operator.go:272-329 | the same for LEFT, RIGHT and FULL over already joined rows; for INNER the result is the join if and only if no left row matches twice |
| `JoinMeaning.JoinedMeans` | internal/topo/operator/join_operator.go:131-258 | the multiplicity of a row in the join is the number of index pairs whose ON is true and that merge to it, plus the unmatched left rows and right tuples equal to it that the join type keeps |
| `JoinMeaning.MatchedCount` | internal/topo/operator/join_operator.go:131-194 | every matching pair of indices gives its row once |
| `Joins.ChainedInnerExactly` | internal/topo/operator/join_operator.go:294-305 | a chained inner join is right exactly when every left row has at most one match: later matches lose the left tuples |
| `Joins.CrossExactly` | internal/topo/operator/join_operator.go:176-180 | a cross join is the product exactly when the right side is non-empty or the left side is empty |
| `Joins.ChainedSecondMatchIsBare` | internal/topo/operator/join_operator.go:294-305 | one joined row with two matches: the second match comes without the left tuples |
| `Joins.CrossWithNothingIsBare` | internal/topo/operator/join_operator.go:176-180 | one left tuple crossed with nothing comes out bare |
| `Joins.LeftPassIsOuter` | internal/topo/operator/join_operator.go:131-181 | the left pass of LEFT and FULL yields the matches and each unmatched left row once |
| `Joins.LeftPassIsInner` | internal/topo/operator/join_operator.go:131-181 | the left pass of INNER yields exactly the matches |
| `Joins.RightPassIsOuter` | internal/topo/operator/join_operator.go:223-258 | the right pass yields the matches, right tuple first, and each unmatched right tuple once |
| `Joins.RightPassIsLeftOver` | internal/topo/operator/join_operator.go:223-258 | with joint tuples excluded it yields only the unmatched right tuples |
| `Joins.Transposed` | internal/topo/operator/join_operator.go:209-258 | running over the right side first gives the same pairs |
| `Joins.JoinLeft` | internal/topo/operator/join_operator.go:136-175 | the inner loop with its `leftJoined` flag computes the specified rows of one left row, and fails exactly when ON does |
| `Joins.LeftPass` | internal/topo/operator/join_operator.go:131-181 | the outer loop computes the specified left pass |
| `Joins.JoinRight` | internal/topo/operator/join_operator.go:224-250 | the inner loop of the right pass with its `isJoint` flag |
| `Joins.RightPass` | internal/topo/operator/join_operator.go:223-258 | the outer loop of the right pass |
| `Filters.FilterInPlace` | internal/topo/operator/filter_operator.go:64-104 | the in-place filter leaves exactly the accepted rows, in order, or stops at the first row the condition fails on |
| `Filters.FilteredMeans` | internal/topo/operator/filter_operator.go:40-113 | an error exactly if the condition fails on some row, nothing exactly if it accepts none, and otherwise the accepted rows, each as often as it came |
| `Filters.ApplyTuple` | internal/topo/operator/filter_operator.go:40-52 | a tuple passes, is dropped or fails as a batch of one row would |
| `Filters.ApplyJoinSets` | internal/topo/operator/filter_operator.go:92-113 | an error if any row fails, nothing if no row passes, else the rows that pass |
| `Filters.ApplyWindowSet` | internal/topo/operator/filter_operator.go:70-91 | the same for a window, which must hold exactly one group |
| `Filters.ApplyBatch` | internal/topo/operator/filter_operator.go:53-69 | a batch is passed on even if no row is left, and is an error exactly if some row fails |
| `PushDownMeaning.OptimizePreservesMeaning` | internal/topo/planner/rules.go:24-27 | for every plan built from two sources in one window or aligned, with one join (INNER if below a filter), or from one source under at most one window, with any filters (unqualified fields included over one source) and other nodes above: the optimized plan yields the same rows in the same order |
| `PushDownMeaning.PushDownMeans` | internal/topo/planner/logicalPlan.go:46-57 | pushing a condition into a plan gives a plan whose rows are the rows of the old plan that satisfy the condition |
| `PushDownMeaning.InnerJoinMeans` | internal/topo/planner/joinPlan.go:30-49 | through an inner join |
| `PushDownMeaning.OuterJoinMeans` | internal/topo/planner/joinPlan.go:30-49 | an outer join without a filter above is left as it is |
| `PushDownMeaning.FilterMeans` | internal/topo/planner/filterPlan.go:29-48 | through a filter, which disappears when nothing of it is left |
| `PushDownMeaning.WindowMeans` | internal/topo/planner/windowPlan.go:34-51 | through a window over one source |
| `PushDownMeaning.WindowInput` | internal/topo/planner/windowPlan.go:34-51 | a processing-time window of any kind takes the condition with its own and hands none back: it then works on exactly the source rows that satisfy both |
| `PushDownMeaning.WindowInputTwo` | internal/topo/planner/windowPlan.go:34-51 | over two sources each source passes on the rows that satisfy what the condition says about it |
| `PushDownMeaning.PushAlignedSources` | internal/topo/planner/joinAlignPlan.go:30-50 | through a join align over two sources |
| `PushDownMeaning.SourceMeans` | internal/topo/planner/dataSourcePlan.go:52-63 | a source takes what it owns and returns the rest |
| `PushDownMeaning.ExtractTakesOwned` | internal/topo/planner/dataSourcePlan.go:65-90 | conjuncts about one stream, qualified throughout or not at all, go to the source completely |
| `PushDownMeaning.JoinPushTuples` | internal/topo/planner/joinPlan.go:34-41 | filtering each side before an inner join is filtering the pairs after it |
| `PushDownMeaning.ExtractConditionLosesNothing` | internal/topo/planner/joinPlan.go:51-72 | a condition holds exactly if both parts of the split hold |
| `PushDownMeaning.ExtractConditionSplits` | internal/topo/planner/joinPlan.go:51-72 | every conjunct of the pushable part names at most one stream, never the default one |
| `PushDownMeaning.ExtractConditionRefs` | internal/topo/planner/joinPlan.go:51-72 | the parts name together exactly the streams of the condition |
| `PushDownMeaning.ExtractLosesNothing` | internal/topo/planner/dataSourcePlan.go:65-90 | a condition holds exactly if the owned and the remaining part hold |
| `PushDownMeaning.ExtractOwnsItsOwn` | internal/topo/planner/dataSourcePlan.go:65-90 | the owned part names only the source or the default stream |
| `PushDownMeaning.ExtractLeavesOthers` | internal/topo/planner/dataSourcePlan.go:65-90 | what remains never names the source, and always names some stream |
| `PushDownMeaning.CombineHolds` | internal/topo/planner/util.go:44-56 | the combination of two conditions holds exactly if both do |
| `PushDownLimits.StreamTablePreservedExactly` | internal/topo/planner/joinAlignPlan.go:30-50 | a stream behind an event-time or count window joined with a table keeps its meaning in every world if and only if the pushable condition has no part for the table or no part for the stream: otherwise the second pass of the join align puts the stream's part on the table |
| `PushDownLimits.ConditionsOnBothSidesAreMixedUp` | internal/topo/planner/joinAlignPlan.go:40-49 | a concrete query for which it does not |
| `PushDownLimits.LeftJoinPushChangesRows` | internal/topo/planner/joinPlan.go:42-46 | a concrete left join whose rows the rewrite changes |
| `OuterJoins.OuterJoinPreservedExactly` | internal/topo/planner/joinPlan.go:30-49 | a filter on a LEFT, RIGHT, FULL or CROSS join over two sources keeps its rows under push-down in every world if and only if the window below takes no filter, or each side the join fills up takes nothing of the condition but constants the other side takes too |
| `OuterJoins.NamedShares` | internal/topo/planner/joinPlan.go:42-46 | if every atom names a stream that means: the null-supplied side takes no part of the condition (the right side for LEFT and CROSS, the left one for RIGHT, both for FULL) |
| `OuterJoins.SafeSharesKeep` | internal/topo/planner/joinPlan.go:42-46 | under that condition filtering the sides and then the join gives the rows of the filtered join, in order |
| `OuterJoins.LoneAtomChanges` | internal/topo/planner/joinPlan.go:42-46 | without it a world where just one atom is false tells the two apart |
| `TableJoins.OuterTablePreservedExactly` | internal/topo/planner/joinAlignPlan.go:30-50 | a stream behind an event-time or count window and a table under a LEFT, RIGHT, FULL or CROSS join: a filter above keeps its rows under push-down in every world if and only if it pushes nothing for the table, or nothing but that and the join keeps every tuple of the table |
| `TableJoins.RowsOfPush` | internal/topo/planner/joinAlignPlan.go:30-50 | the rows after the push: nothing for the table leaves all above the join; otherwise the table is filtered by its part and by the part for the stream, if there is one |
| `TableJoins.TablePartKeeps` | internal/topo/planner/joinPlan.go:42-46 | where the join keeps every tuple of the table, filtering the table first gives the same rows in order |
| `TableJoins.TablePartChanges` | internal/topo/planner/joinPlan.go:42-46 | where it fills the table up, a world where one atom of the part is false tells the two apart |
| `TableJoins.BothPartsChange` | internal/topo/planner/joinAlignPlan.go:40-49 | with parts for both, matching rows are lost under every join type |
| `Planner.PushDownPredicate` | internal/topo/planner/logicalPlan.go:46-57 | the dispatch over plan nodes computes the specified rewrite |
| `Planner.PushThrough` | internal/topo/planner/logicalPlan.go:46-57 | the loop over the children threads the rest of the condition as specified |
| `Planner.FirstPass` | internal/topo/planner/joinAlignPlan.go:31-39 | the first loop of the join align offers the condition to the sources |
| `Planner.SecondPass` | internal/topo/planner/joinAlignPlan.go:40-49 | the second loop offers the rest to the other children |
| `Planner.Optimize` | internal/topo/planner/rules.go:24-27 | the optimizer returns the rewritten plan and forgets nothing |
| `Planner.NothingLeft` | internal/topo/planner/rules.go:24-27 | for every plan whatsoever (any joins, windows, tables and filters), pushing nothing leaves nothing: the condition the optimizer discards is always empty |
| `Planner.PushAgainIsPushDown` | internal/topo/planner/joinAlignPlan.go:40-49 | offering the rest to a source that already got a filter is pushing into that filter |
| `TokenRing.Parser.Scan` | internal/xsql/parser.go:53-74 | through pushed-back tokens and the scanner alike, scan reads the token at the cursor and advances it; white space moves nothing |
| `TokenRing.Parser.Again` | internal/xsql/parser.go:53-57 | a pushed-back token is read again from the ring |
| `TokenRing.Parser.Read` | internal/xsql/parser.go:59-64 | the scanner yields the next token of the input, and end of file for ever after |
| `TokenRing.Parser.Push` | internal/xsql/parser.go:61-65 | the ring keeps the last three tokens read |
| `TokenRing.Parser.ScanNumber` | internal/xsql/parser.go:614-625 | after a minus sign the number that follows is read past the ring, and the cursor view stays right: nothing can be pushed back then |
| `TokenRing.Parser.Unscan` | internal/xsql/parser.go:89 | moves the cursor one back, up to three times in a row after three reads |
| `TokenRing.Parser.ScanIgnoreWhitespace` | internal/xsql/parser.go:76-87 | reads the next token that is not white space and advances the cursor by one |
| `TokenRing.NthIsSolid` | internal/xsql/parser.go:76-87 | what the scanner still yields is the rest of the tokens that are not white space |
| `TokenRing.YieldsSolid` | internal/xsql/parser.go:53-87 | at the start the scanner yields the tokens that are not white space |
| `ExpressionTrees.ParseExprExactly` | internal/xsql/parser.go:460-770 | for all tokens, trees and positions: the parser returns this tree at this position if and only if the tree reads as the tokens in between, every left child binds at least as tightly and every right child more tightly than its parent, and the next token cannot continue it; operands are literals, negative numbers, names, indices and slices, parentheses, calls and CASE expressions, the last three to any depth |
| `ExpressionTrees.RoundTrip` | internal/xsql/parser.go:460-770 | parsing a tree's own tokens returns the tree and consumes them all |
| `ExpressionTrees.WellFormedTreeIsUnique` | internal/xsql/parser.go:460-770 | no two well-formed trees read the same |
| `ExpressionTrees.TwoOperators` | pkg/ast/token.go:260-274 | the five levels as sets of operators: `a op b op2 c` is read as `a op (b op2 c)` if op2 is on a tighter level, and as `(a op b) op2 c` otherwise, for any two operators |
| `ExpressionTrees.ExprSound` | internal/xsql/parser.go:460-770 | what is returned is well formed and reads as the tokens consumed |
| `ExpressionTrees.TreeRead` | internal/xsql/parser.go:465-494 | below any spine of looser operators the loop reads every tighter tree |
| `ExpressionTrees.ItemsSound` | internal/xsql/parser.go:636-770 | the arguments of a call and the parts of a CASE are well formed, in an order the program accepts, and read as the tokens consumed |
| `ExpressionTrees.ItemsRead` | internal/xsql/parser.go:636-770 | every such list is read back, with its separators |
| `ExpressionTrees.GroupTreeRead` | internal/xsql/parser.go:636-770 | so every call and every CASE is read as one operand |
| `GroupShapes.GroupsAre` | internal/xsql/parser.go:636-770 | the groups that are parsed, item by item: calls with arguments separated by commas, and CASE expressions in which WHEN follows the value, THEN each condition, and WHEN, ELSE or the final END each result; conditions are boolean if there is no value |
| `GroupShapes.CallList` | internal/xsql/parser.go:644-690 | the argument lists, with what may stand after the last comma |
| `GroupShapes.CaseList` | internal/xsql/parser.go:708-770 | the parts of a CASE expression |
| `ExpressionTrees.InsertKeeps` | internal/xsql/parser.go:486-493 | inserting an operator at its place keeps the precedence order |
| `ExpressionTrees.InsertReads` | internal/xsql/parser.go:486-493 | and appends operator and operand to the reading |
| `ExpressionTrees.FieldTaken` | internal/xsql/parser.go:231-251 | a dotted name of at most two sections is a path, and what follows cannot belong to it |
| `ExpressionTrees.FieldRead` | internal/xsql/parser.go:231-251 | every such path is read back |
| `ExpressionTrees.BracketTaken` | internal/xsql/parser.go:571-625 | what is read between brackets is one of the six index and slice forms, indices with or without a minus |
| `ExpressionTrees.BracketRead` | internal/xsql/parser.go:571-625 | each of the six forms is read back |
| `ExpressionParser.Place` | internal/xsql/parser.go:486-493 | the walk stops at the node whose right-hand side the operator takes over, every operator passed being looser |
| `ExpressionParser.Splice` | internal/xsql/parser.go:486-493 | overwriting that node's right-hand side turns the tree on the heap into the specified one; no node is shared |
| `ExpressionParser.ParseExpression` | internal/xsql/parser.go:460-497 | over the ring and the heap: the tree returned and the cursor are those of the function on values |
| `ExpressionParser.ParseOperations` | internal/xsql/parser.go:468-494 | the outer loop |
| `ExpressionParser.ParseOperation` | internal/xsql/parser.go:468-494 | one round of it |
| `ExpressionParser.ParseUnaryExpr` | internal/xsql/parser.go:499-569 | an operand of any kind, on the heap, as specified; one token is pushed back and read again |
| `ExpressionParser.ParseToken` | internal/xsql/parser.go:546-568 | numbers, strings and truth values, or an error |
| `ExpressionParser.ParseName` | internal/xsql/parser.go:518-526 | a name is a call exactly if a parenthesis follows; otherwise two tokens are pushed back and the field is read |
| `ExpressionParser.ParseCaseExpr` | internal/xsql/parser.go:708-770 | a WHEN right after CASE means there is no value; WHEN, THEN, ELSE and END as specified |
| `ExpressionParser.ParseList` | internal/xsql/parser.go:636-770 | the loop over the expressions of a call or a CASE collects exactly the specified ones; their trees share no node |
| `ExpressionParser.ParseItem` | internal/xsql/parser.go:644-675 | one expression and the token after it, or the end of the list |
| `ExpressionParser.ParseFieldRef` | internal/xsql/parser.go:523-545 | a name that is no call |
| `ExpressionParser.ParseFieldNameSections` | internal/xsql/parser.go:231-251 | the loop reads exactly the sections of the name |
| `ExpressionParser.ParseBracketExpr` | internal/xsql/parser.go:571-593 | reads up to the closing bracket, or fails as specified; indices may be negative |
| `ExpressionParser.ParseColonExpr` | internal/xsql/parser.go:595-612 | reads the end of a slice |
| `ExpressionParser.ScanIndex` | internal/xsql/parser.go:614-625 | reads an index with an optional minus, or says that there is none |
| `FieldTypes.PrintedTypeIsReadBack` | internal/processor/stream.go:303-329 | between any tokens and a comma or closing parenthesis, parsing the printed type returns the type and consumes just that, if and only if the type is complete: no missing type, no empty struct, compound elements only as structs, to any depth |
| `FieldTypes.PrintIsInjective` | internal/processor/stream.go:303-329 | different complete types are printed differently |
| `FieldTypes.TypeRead` | internal/xsql/parser.go:1124-1216 | a complete type standing in the tokens is read |
| `FieldTypes.TypeNotRead` | internal/xsql/parser.go:1124-1216 | an incomplete one is never returned from its own print |
| `FieldTypes.EmptyStructIsNotRead` | internal/xsql/parser.go:1200-1216 | a struct without fields is printed and not parsed |
| `FieldTypes.ArrayOfNothingIsTaken` | internal/xsql/parser.go:1160-1198 | an array without an element type is parsed to no type at all |
| `FieldTypes.FieldsRead` | internal/xsql/parser.go:1064-1122 | a printed field list is read field by field |
| `FieldTypes.FieldListIsReadBack` | internal/xsql/parser.go:1064-1095 | the field list of a statement, the empty one included, printed before WITH is read back, and WITH with it, if and only if every type in it is complete |
| `FieldTypes.ListWithoutWith` | internal/xsql/parser.go:1085-1115 | before a comma or closing parenthesis a list with fields is read and the token stays; an empty list, or any other token, is an error |
| `FieldGrammar.ParseTypeExactly` | internal/xsql/parser.go:1124-1216 | for all tokens, positions and types: a type is parsed if and only if the tokens are it in the grammar, with its two ways to no type |
| `FieldGrammar.ParseFieldsExactly` | internal/xsql/parser.go:1064-1158 | the same for field lists, with the comma that may follow the last field |
| `FieldTypeParser.ParseStreamFields` | internal/xsql/parser.go:1064-1122 | the loop over the ring returns what the function on values does, for every input |
| `FieldTypeParser.ParseNextField` | internal/xsql/parser.go:1069-1115 | one round of the loop |
| `FieldTypeParser.ParseListEnd` | internal/xsql/parser.go:1085-1115 | a token after the list is consumed only if it is WITH |
| `FieldTypeParser.ParseStreamField` | internal/xsql/parser.go:1124-1158 | a name, a type, and a comma that is consumed or a parenthesis that is not |
| `FieldTypeParser.ParseStreamType` | internal/xsql/parser.go:1129-1147 | the kinds of types |
| `FieldTypeParser.ParseStreamArrayType` | internal/xsql/parser.go:1160-1198 | arrays, with the two ways of returning no type at all |
| `FieldTypeParser.ParseStreamStructType` | internal/xsql/parser.go:1200-1216 | structs, with the token after them pushed back |
| `FieldTypeParser.PrintFieldType` | internal/processor/stream.go:303-329 | the printer yields the specified tokens |
| `FieldTypeParser.PrintStreamFields` | internal/processor/stream.go:314-326 | its loop with the `isFirst` flag puts commas between fields only |
| `SinkCache.PendingIsOutstanding` | internal/topo/node/sink_cache.go:118-161 | from a fresh or loaded queue, if no emission is completed twice: all keys are below the tail, the queue is exactly the outstanding emissions, each under its own index, and the next append overwrites none, also after resets |
| `SinkCache.RestartEmitsOutstanding` | internal/topo/node/sink_cache.go:162-205 | after stopping, the next start emits exactly the outstanding emissions again, each once, in ascending index order |
| `SinkCache.SavedEmitsOutstanding` | internal/topo/node/sink_cache.go:138-161 | in every run, when nothing changed since the last save, loading what is saved emits exactly the outstanding emissions, each once, in ascending index order |
| `SinkCache.SavedIsLastSave` | internal/topo/node/sink_cache.go:118-161 | in every run what is saved is the queue right after the last saving tick, or what was loaded; the cache counts as changed exactly if something changed the queue since, or it was loaded and not saved yet |
| `SinkCache.StepSaves` | internal/topo/node/sink_cache.go:138-161 | a tick saves exactly if something changed and there are more items than the threshold or it is the tick to save at; then the whole queue is saved and nothing counts as changed |
| `SinkCache.ExactWithoutStaleCompletions` | internal/topo/node/sink_cache.go:118-161 | whatever the sink completes: the queue stays exactly the outstanding emissions throughout a run if and only if no completion answers an already completed emission whose index has been given out anew |
| `SinkCache.SecondCompletionDropsAnItem` | internal/topo/node/sink_cache.go:136-142 | completing an emission twice, with a reset in between, drops an item that was never completed |
| `SinkCache.QuietCacheIsSaved` | internal/topo/node/sink_cache.go:138-161 | a changed cache below the threshold that goes quiet at any value of the tick counter is saved by ticks if and only if the trigger count is within the threshold, because the counter starts over at the threshold |
| `SinkCache.CounterInPeriod` | internal/topo/node/sink_cache.go:138-161 | in every run the tick counter stays below its period |
| `SinkCache.QuietRunIsSaved` | internal/topo/node/sink_cache.go:118-161 | so the same holds after every run, from a fresh or a loaded cache |
| `SinkCache.ShippedConfigNeverSaves` | internal/topo/node/sink_cache.go:138-161 | with the shipped values, 10 and 15, no number of ticks saves one waiting item |
| `SinkCache.EmissionsAscend` | internal/topo/node/sink_cache.go:188-201 | loading emits in strictly ascending index order |
| `SinkCacheService.LinkedQueue.Append` | internal/topo/node/sink_cache.go:40-43 | the item goes under the tail, which moves on |
| `SinkCacheService.LinkedQueue.Clone` | internal/topo/node/sink_cache.go:57-66 | the copying loop yields an equal queue of its own |
| `SinkCacheService.Cache.Loaded` | internal/topo/node/sink_cache.go:173-205 | loading a saved queue |
| `SinkCacheService.Cache.OnItem` | internal/topo/node/sink_cache.go:126-134 | the object follows the specified step |
| `SinkCacheService.Cache.OnComplete` | internal/topo/node/sink_cache.go:135-137 | the object follows the specified step, for any index, also one never emitted |
| `SinkCacheService.Cache.OnTick` | internal/topo/node/sink_cache.go:138-161 | the object follows the specified step: reset, save of a copy, counter |

## Left out

- Processing-time tumbling, hopping, sliding and session windows: they depend on real tickers and, through `calDelta`, on
  the last non-empty trigger. The count window is modelled.
- WindowOperator.EventWindowOperator.constructor: a fresh operator only; restoring the watermark and the buffer from
  saved state is not modelled.
- The branch of `calDelta` that widens a window when the trigger time is zero or negative: the start time is positive.
- `sort.SliceStable` and `sort.Ints` are taken as a stable sort and as ascending order.
- Tuple contents: a tuple is an emitter, a timestamp and an opaque message.
- Exactly-once at sources: sources are triggered concurrently with their own loop. The cut is stated at operators.
- The order of items the aligner hands back: they are resent from a goroutine, so only conservation is stated, and the
  cut counts them as processed by then.
- SQLite, gob and JSON: the stores are maps.
- CheckpointService.CheckpointCoordinator.Complete: the sinks' own `SaveCache` on completion is not modelled.
- CheckpointService.CheckpointCoordinator.Respond: the broadcast of the barrier and the taking of the snapshot come
  before it; the model starts at the save.
- PushDownMeaning.OptimizePreservesMeaning: excludes plans with several joins (only the first is considered by the
  rewrite), `meta()` references (not seen by `getRefSources`), and processing-time windows other than tumbling below a
  filter (their content depends on earlier triggers). Outer joins below a filter are in `OuterJoins`.
- PushDownMeaning.PushDownMeans: the same plans.
- PushDownMeaning.InnerJoinMeans: two sources in one window or aligned, not the results of another join.
- PushDownMeaning.WindowMeans: windows that take a filter are processing-time tumbling ones; for the other kinds
  `PushDownMeaning.WindowInput` says what the window works on.
- OuterJoins.OuterJoinPreservedExactly: two sources in one window or aligned, as for inner joins. A stream behind a window
  that takes no filter, aligned with a table, is in `TableJoins`.
- Choosing left and right stream of a join from the order in its ON clause: the two lists are inputs.
- Planner.PushDownPredicate: plan nodes are values; that the rewrite overwrites fields of shared nodes is not captured.
- Column pruning, the other optimizer rule.
- ExpressionTrees.ParseExprExactly: the checks of function names and arguments, the conversion of window calls with their
  FILTER clause, the extra argument of `deduplicate`, the `meta` context, the integer range of indices, and a comment
  between a minus and its number.
- ExpressionParser.ParseExpression: the same.
- TokenRing.Parser.Unscan: at most as many tokens are pushed back as the ring holds; the program does not test this, and
  every use of it in the modelled parsers is proved to stay within.
- Scanning: the parser starts from tokens, and `printFieldType` is modelled by the tokens of what it prints.
- The rest of the SQL statements, their options and validation.
- SinkCache.PendingIsOutstanding: covers the time-based loop; the checkpoint-based loop differs in its triggers and
  passes barriers through. Blocking on a full channel is not modelled.
- SinkCacheService.Cache.OnTick: the save of the copy, a goroutine in the program, neither fails nor lags.
- `MultiSorter`, scalar functions, sources and sinks, REST and RPC servers, plugins, configuration: easy members, I/O, or
  foreign libraries.
