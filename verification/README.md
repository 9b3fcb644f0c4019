# Verified model of an asyncio concurrency kit

The project models the circuit breaker, the producer/consumer pipeline, the buffered storage writer,
the streaming run that composes them, the worker pool, the concurrency limiter, the retry policy and
the result figures of `async_patterns`, and proves what they guarantee under every interleaving of
tasks. `dafny verify dfyconfig.toml` checks all of it.

## How the model is built

Code between two suspension points is one atomic step. Each stateful object appears three times:

1. a value type with one function per step (`Breaker`, `Pipe`, `Writer`, `Limiter`, `Budget`);
2. a class with the source's fields, whose methods are proved to compute those functions; `Replay`
   (for the breaker in `BreakerReplay`, for the pipeline in `PipelineReplay`, for writer, limiter and
   budget in their own modules) shows that an object can perform every run and ends in its last state;
3. a transition system in which any number of tasks interleave those steps (`Enabled`, `Step`,
   `IsRun`), over whose runs the theorems range.

For the breaker the value type keeps the whole event history and decides on it, while the class keeps
the lazily pruned window, so the class contracts are the refinement of the window by the history.
Clock readings, jitter draws, timeouts, outcomes of calls and failures of targets are arguments of the
steps. The clock never goes backwards. Time, delays and latencies are exact reals. An
`asyncio.Semaphore` is its creation number and its free permits; a waiter is granted a permit in one
step and resumes in another, as asyncio does it.

| file | contents |
|---|---|
| Breaker, BreakerSystem, BreakerProperties, BreakerTraces, BreakerDwell, BreakerBounds, BreakerReplay | circuit breaker: steps and class, interleaving and invariant, probe permits, runs, dwell and timestamps, limits on probes and calls, class against runs |
| Pipeline, PipelineSystem, PipelineProperties, PipelineHandOver, PipelineAccounts, PipelineReplay | pipeline: steps and class, interleaving and invariant, conservation and drain, exactly-once and batch sizes, hand-over times and figures, class against runs |
| BufferedWriter, Streaming | buffering writer under target failures; stream through pipeline into writers whose targets fail |
| Workers, WorkerPool, ResultStream | `run` and `stream` under every schedule |
| EndToEnd | workers, result stream, pipeline and writers together |
| Limiter | limiter with changes of the limit |
| RetryBudget, Backoff, RetryExecution, RetrySystem | budget windows, delays, one execution, any number of executions sharing breaker and budget |
| EngineResults | percentiles, counts, breakdowns |
| Common | counting and flattening sequences |

## What the code does not guarantee

Each of these is a theorem with the exact condition under which the guarantee holds.

- **Probe permits of a half-open generation.** After waiting for a permit, `__aenter__` remembers the
  breaker's semaphore of that moment, not the one it waited on. A waiter that resumes after its
  generation ended loses the old permit and hands back one of the new generation that it never took
  (`LateWaiterBreaksProbeBound`: two concurrent probes with a probe count of one). A step conserves
  the permits of every generation exactly when it is not such a resumption (`StepConserves`,
  `RunConservesExactlyWhenTimely`).
- **At most `probe_count` concurrent probes** holds in every run of n tasks if and only if
  n <= `probe_count` or `probe_count` is 0 (`ProbeCountHoldsExactly`); with more tasks a late waiter can
  always be arranged, whatever the other settings.
- **At most `half_open_max_calls` calls in half-open state**, as documented, is not what the code
  enforces. A spell lets in at most `half_open_max_calls` - 1 + `probe_count` calls when nobody is late,
  and at most `half_open_max_calls` - 1 + n in any case (`SpellAdmitsAtMost`). The documented cap holds in
  every run of n tasks if and only if `probe_count` is 0 or n <= 1, and in every run without late waiters
  if and only if `probe_count` <= 1 or n <= 1 (`CallCapHoldsExactly`; `TwoProbesExceed` and
  `LateWaiterExceeds` build the failing runs).
- **Drain.** `stop` can leave an accepted item behind exactly when a `put` is pending at its call
  (`StopStrandsExactlyWhenPutPending`; `BlockedItemIsStranded` is a run in which it happens).
- **Exactly-once hand-over.** If the error callback itself raises in the main loop and the outer one
  does not, the failed batch is kept and handed over again. Without cancellation every item is handed
  over exactly once if and only if that never happens (`HandedExactlyOnce`,
  `DrainHandsOverExactlyOnce`), and items are lost exactly when a stop without drain hits a consumer
  with items in its batch (`LostExactlyWhenCancelled`).
- **Batch size.** All batches of a run are within `batch_size` if and only if no item is received on
  top of a full batch (`SizedExactlyUnlessOverfilled`), which only a kept batch makes possible. Seen
  from the configuration: batch sizes, their average and exactly-once hand-over hold in every run if
  and only if there is no error callback (`ConfigurationDecides`).
- **A closed writer is immutable** exactly when no writer is between the closed check and the lock
  (`ImmutableExactlyWhenNoneRaces`). A record that slips in stays buffered, whatever is called, until an
  explicit flush (`StuckUntilFlushed`), and `close` then returns without storing it
  (`CloseEmptiesUnlessRaced`; `WriteAfterCloseIsStuck` is such a run).
- **Changing the limit.** Exits release into the new semaphore, so a change to `n` with `h` holders
  leaves `n + h` permits in play, up to the permits that callers waiting at the change still obtain from
  the old semaphore or give back to it (`ResizeAddsHolders`), although the documentation says that active
  operations are not affected. More than `n` tasks can then come to be inside if and only if there are
  more than `n` tasks and one of them holds a permit, or could be granted one, at the change
  (`NewLimitIsExceededExactly`). `SameLimitAgainAdmitsTwo`: a limit of one set to one again admits two.
- **Storing the stream.** When a target fails during the drain the pipeline suppresses the exception and
  `run` returns normally. A writer then holds everything if and only if no batch failed before all of it
  had reached that writer (`EveryWriterStoresTheStream`, `EveryUrlIsDurableOrDropped`);
  `SuppressedFailureLosesABatch` is a run that returns normally with nothing stored.
- **Opening when a threshold is exceeded.** The circuit already opens when a threshold is reached, which
  differs from the documentation exactly on windows at a threshold and above neither
  (`TripsEarlierExactly`).
- **Non-decreasing delays** for all jitter draws hold exactly when the jitter factor is at most one
  third or even the least next delay reaches the cap (`NeverDecreasesExactly`).
- **The reported counts.** `success_count` is the documented count exactly when no 2xx result carries an
  error, `error_count` exactly when no result without an error has a 1xx or 3xx status
  (`CountsAreAsDocumentedExactly`, with inputs in `CountsNeedNotAddUp`); the breakdown covers all errors
  but those with an empty message and a status below 400 (`ErrorBreakdown`).

In all of these the model follows the code.

## Model

| member | source | states |
|---|---|---|
| CircuitBreaking.CircuitBreaker.constructor | src/async_patterns/patterns/circuit_breaker.py:116-129 | a new breaker is closed with all counters zero, no semaphore, empty window |
| CircuitBreaking.WindowIsSuffix | src/async_patterns/patterns/circuit_breaker.py:157-162 | in a time-ordered history the events at or after the cutoff are a suffix, so dropping from the head computes the filter |
| CircuitBreaking.CircuitBreaker.PruneWindow | src/async_patterns/patterns/circuit_breaker.py:157-162 | after pruning, the deque equals the full history since reset filtered by `ts >= now - window_duration` |
| CircuitBreaking.CircuitBreaker.ShouldOpenNow | src/async_patterns/patterns/circuit_breaker.py:164-182 | the decision on the pruned deque is the decision on the full history |
| CircuitBreaking.CountFailures | src/async_patterns/patterns/circuit_breaker.py:171-171 | the loop counts the failed events |
| CircuitBreaking.TripsEarlierExactly | src/async_patterns/patterns/circuit_breaker.py:173-180 | the circuit opens whenever a threshold is exceeded, as documented, and besides exactly on windows at a threshold and above neither |
| CircuitBreaking.CircuitBreaker.TryOpenNow | src/async_patterns/patterns/circuit_breaker.py:210-217 | opens (or re-arms) exactly when the full history meets a threshold, stamping the later clock reading |
| BreakerTraces.OpensExactlyOnThreshold | src/async_patterns/patterns/circuit_breaker.py:164-217 | over every run, a closed circuit opens in a step if and only if the step records a failing exit or a slow response and the outcomes recorded since the last reset, cut to the window, meet a threshold |
| BreakerTraces.HistoryIsRecorded | src/async_patterns/patterns/circuit_breaker.py:286-348 | the history is every outcome recorded in the run since the last reset, in order |
| CircuitBreaking.OpensExactlyWhenThresholdMet | src/async_patterns/patterns/circuit_breaker.py:291-348 | a failing exit or a slow response leaves the circuit closed exactly if it was closed and the full-history window meets neither threshold; a success never opens it |
| CircuitBreaking.CircuitBreaker.HalfOpenIfElapsed | src/async_patterns/patterns/circuit_breaker.py:219-230 | an open circuit turns half-open, with a fresh semaphore and no successes, exactly when the dwell has elapsed |
| CircuitBreaking.CircuitBreaker.CloseIfRecovered | src/async_patterns/patterns/circuit_breaker.py:232-244 | a half-open circuit closes and clears its failure count exactly when enough calls succeeded |
| CircuitBreaking.CircuitBreaker.TryEnter | src/async_patterns/patterns/circuit_breaker.py:246-272 | entering up to the first suspension: admitted, refused and counted, or waiting on the half-open semaphore |
| CircuitBreaking.CircuitBreaker.Probe | src/async_patterns/patterns/circuit_breaker.py:258-270 | a probe takes a permit of the current semaphore and remembers it, or waits |
| CircuitBreaking.CircuitBreaker.ResumeWaiter | src/async_patterns/patterns/circuit_breaker.py:269-270 | a resumed waiter remembers the semaphore that is the breaker's at that moment |
| CircuitBreaking.CircuitBreaker.RefuseCaller | src/async_patterns/patterns/circuit_breaker.py:263-268 | a timed-out waiter is counted as rejected |
| CircuitBreaking.CircuitBreaker.Leave | src/async_patterns/patterns/circuit_breaker.py:274-329 | leaving returns the remembered permit, counts the request and moves the state as the full history demands |
| CircuitBreaking.CircuitBreaker.ReturnPermit | src/async_patterns/patterns/circuit_breaker.py:281-284 | the permit goes back to the semaphore the task remembers, and the task forgets it |
| CircuitBreaking.CircuitBreaker.LeaveFailed | src/async_patterns/patterns/circuit_breaker.py:291-320 | a failure is recorded and reopens a half-open circuit at once, otherwise opens on the thresholds |
| CircuitBreaking.CircuitBreaker.LeaveSucceeded | src/async_patterns/patterns/circuit_breaker.py:321-329 | a success is recorded and, half-open, counted towards closing |
| CircuitBreaking.CircuitBreaker.NoteLatency | src/async_patterns/patterns/circuit_breaker.py:331-348 | a slow response of a closed circuit counts as a failure; otherwise nothing changes |
| CircuitBreaking.CircuitBreaker.ResetNow | src/async_patterns/patterns/circuit_breaker.py:370-381 | reset returns to a closed circuit with cleared counters, window and semaphore, leaving tasks their permits |
| BreakerSystem.StepKeepsInv | src/async_patterns/patterns/circuit_breaker.py:246-348 | every step of every task keeps the accounting, the permit ledger, the time order and the half-open facts |
| BreakerSystem.RunKeepsInv | src/async_patterns/patterns/circuit_breaker.py:246-381 | so does every run, resets included |
| BreakerReplay.Perform | src/async_patterns/patterns/circuit_breaker.py:246-381 | one step of the system is one call on the object, context variable included |
| BreakerReplay.Replay | src/async_patterns/patterns/circuit_breaker.py:246-381 | a fresh object performs any run and ends in its last state |
| BreakerProperties.StepConserves | src/async_patterns/patterns/circuit_breaker.py:258-284 | free permits + holders = `probe_count` for every generation survives a step exactly when the step is not a late resumption |
| BreakerProperties.RunConservesExactlyWhenTimely | src/async_patterns/patterns/circuit_breaker.py:258-284 | all states of a run conserve every generation's permits if and only if every resumed waiter was in time |
| BreakerProperties.ProbesBounded | src/async_patterns/patterns/circuit_breaker.py:124-127 | as long as nobody resumes late at most `probe_count` tasks hold permits of one generation |
| BreakerBounds.ProbeCountHoldsExactly | src/async_patterns/patterns/circuit_breaker.py:258-270 | at most `probe_count` probes of a generation in every state of every run of n tasks, late waiters included, if and only if n <= `probe_count` or `probe_count` is 0 |
| BreakerBounds.ReachTooManyProbes | src/async_patterns/patterns/circuit_breaker.py:262-270 | for every configuration with 1 <= `probe_count` < n, a run from a fresh breaker to one probe too many |
| BreakerBounds.AdmissionsAccounted | src/async_patterns/patterns/circuit_breaker.py:246-329 | the calls a half-open spell has let in are still inside with its permits or have succeeded |
| BreakerBounds.SpellAdmitsAtMost | src/async_patterns/patterns/circuit_breaker.py:184-186 | a spell lets in at most `half_open_max_calls` - 1 + `probe_count` calls when nobody is late, and at most `half_open_max_calls` - 1 + n otherwise |
| BreakerBounds.CallCapHoldsExactly | src/async_patterns/patterns/circuit_breaker.py:62-64 | the documented cap of `half_open_max_calls` calls per spell holds in every run of n tasks if and only if `probe_count` is 0 or n <= 1, and without late waiters if and only if `probe_count` <= 1 or n <= 1 |
| BreakerBounds.TwoProbesExceed | src/async_patterns/patterns/circuit_breaker.py:258-270 | with two probes and two tasks, a run without late waiters that lets in one call more than the cap |
| BreakerProperties.LateWaiterBreaksProbeBound | src/async_patterns/patterns/circuit_breaker.py:262-270 | a run in which two probes of a generation with one permit are inside together |
| BreakerTraces.StepFollowsEdge | src/async_patterns/patterns/circuit_breaker.py:210-244 | without reset only the five documented transitions occur; the timestamp moves only with them or when a late failure re-arms OPEN |
| BreakerTraces.StaysOpen | src/async_patterns/patterns/circuit_breaker.py:219-230 | over any run, an open circuit is still open at every time before its last arming + `open_state_duration` |
| BreakerTraces.LeavesOpenOnlyAfterDwell | src/async_patterns/patterns/circuit_breaker.py:222-224 | if it is later not open, at least that long has passed |
| BreakerDwell.OpenForTheWholeDwell | src/async_patterns/patterns/circuit_breaker.py:210-225 | told from the steps: after the one that opened the circuit, or a failing exit while open whose window trips, it is open in every state before the reading of that step plus the duration |
| BreakerDwell.HalfOpenOnceDue | src/async_patterns/patterns/circuit_breaker.py:219-230 | the first caller that comes a full duration after the last such step turns it half-open and is not rejected |
| BreakerDwell.LastChangeIsStamped | src/async_patterns/patterns/circuit_breaker.py:216-241 | the reported time of the last change lies within the step that last changed the state, armed the circuit or reset the breaker |
| BreakerDwell.LastFailureIsReported | src/async_patterns/patterns/circuit_breaker.py:291-346 | the reported time of the last failure is that of the last failure recorded since the last reset |
| BreakerDwell.EntersExactly | src/async_patterns/patterns/circuit_breaker.py:246-272 | a closed circuit lets everyone in; a half-open one exactly with a free permit and nobody ahead, else the caller waits |
| BreakerDwell.ResetIsFresh | src/async_patterns/patterns/circuit_breaker.py:370-381 | after a reset the breaker is as new but for the permits of semaphores still in use |
| BreakerTraces.PendingSince | src/async_patterns/patterns/circuit_breaker.py:246-270 | whoever waits during the dwell has been waiting on the same semaphore since the dwell began |
| BreakerTraces.DwellRefuses | src/async_patterns/patterns/circuit_breaker.py:246-272 | during the dwell every caller is rejected, and whoever gets in holds a permit of an earlier generation on whose semaphore it was already waiting when the span began |
| BreakerTraces.SpellCounts | src/async_patterns/patterns/circuit_breaker.py:326-329 | the half-open counter is the number of successful exits since HALF_OPEN began, none of which failed |
| BreakerTraces.ClosesExactlyOnLastSuccess | src/async_patterns/patterns/circuit_breaker.py:291-329 | HALF_OPEN closes exactly on the `half_open_max_calls`-th success of its spell, reopens exactly on a failure, and the counter stays below the limit |
| BreakerTraces.CountersAddUp | src/async_patterns/patterns/circuit_breaker.py:251-268 | absent reset, the entries of a run are inside, waiting, finished or rejected; `request_count` is the number of exits and `success_count` that of the successful ones |
| BreakerTraces.FailureCounts | src/async_patterns/patterns/circuit_breaker.py:219-348 | `failure_count` is the number of failing exits and slow responses since the last closing from half-open or reset |
| Pipelines.ProducerConsumerPipeline.constructor | src/async_patterns/patterns/pipeline.py:83-94 | a new pipeline is empty and not running |
| Pipelines.ProducerConsumerPipeline.TryPut | src/async_patterns/patterns/pipeline.py:124-134 | put raises after shutdown, enqueues if there is room, drops or blocks otherwise |
| Pipelines.ProducerConsumerPipeline.Enqueue | src/async_patterns/patterns/pipeline.py:136-137 | a blocked put that goes through appends its item |
| Pipelines.ProducerConsumerPipeline.NoteDropped | src/async_patterns/patterns/pipeline.py:138-141 | an expired or refused put is counted as dropped |
| Pipelines.ProducerConsumerPipeline.LoopHead | src/async_patterns/patterns/pipeline.py:193-241 | the loop consults the shutdown flag; at shutdown a partial batch is handed over first |
| Pipelines.ProducerConsumerPipeline.Fetched | src/async_patterns/patterns/pipeline.py:201-223 | an item joins the batch, which is handed over when full or out of time |
| Pipelines.ProducerConsumerPipeline.Finish | src/async_patterns/patterns/pipeline.py:158-182 | what follows a hand-over: counted and cleared, suppressed in the drain, kept, or a dead consumer |
| Pipelines.ProducerConsumerPipeline.Poll | src/async_patterns/patterns/pipeline.py:243-258 | one round of the drain loop, or leaving it |
| Pipelines.ProducerConsumerPipeline.Launch | src/async_patterns/patterns/pipeline.py:260-267 | starting is a no-op when running and otherwise begins with an empty batch |
| Pipelines.ProducerConsumerPipeline.RequestStop | src/async_patterns/patterns/pipeline.py:269-291 | stopping sets the flag and, without drain, cancels an unfinished consumer |
| Pipelines.ProducerConsumerPipeline.DrainQueue | src/async_patterns/patterns/pipeline.py:243-253 | undisturbed, the drain loop empties the queue into full batches |
| Pipelines.ProducerConsumerPipeline.DrainAlone | src/async_patterns/patterns/pipeline.py:233-258 | undisturbed, the drain hands over the partial batch and then the queue cut into chunks, whatever `on_batch` does |
| Pipelines.ChunksShape | src/async_patterns/patterns/pipeline.py:243-258 | the chunks of q items are q / batch_size full ones and at most one remainder, and together they are the queue |
| PipelineSystem.StepKeepsInv | src/async_patterns/patterns/pipeline.py:111-293 | every step of producers, consumer and controllers keeps order, control, hand-over, size and put accounting |
| PipelineReplay.Perform | src/async_patterns/patterns/pipeline.py:111-293 | one step of the system is one call on the object |
| PipelineReplay.Replay | src/async_patterns/patterns/pipeline.py:111-293 | a fresh object performs any run and ends in its last state |
| PipelineProperties.RunIsFifo | src/async_patterns/patterns/pipeline.py:111-293 | in every state of every run, accepted items = batches given up ++ partial batch ++ queue, in order; puts = accepted + dropped + blocked |
| PipelineAccounts.PutsAreAccountedFor | src/async_patterns/patterns/pipeline.py:124-141 | accepted are, in order, the items put while there was room and those that waited and woke up; every drop is counted; with `drop_on_full` nobody ever waits |
| PipelineAccounts.BlocksExactly | src/async_patterns/patterns/pipeline.py:127-141 | a producer waits exactly when the queue is full and does not drop, until it wakes up or gives up |
| PipelineAccounts.DueBatchIsHandedOver | src/async_patterns/patterns/pipeline.py:192-225 | when the wait for an item ends, the batch with the item is handed over exactly if it is full, or its time is up and it is not empty |
| PipelineAccounts.MainHandOverStartsExactly | src/async_patterns/patterns/pipeline.py:218-225 | no other step starts a hand-over of the main loop |
| PipelineAccounts.FiguresAreExact | src/async_patterns/patterns/pipeline.py:179-182 | the reported batches and items are those `on_batch` completed or whose exception the error callback took care of |
| PipelineAccounts.DiesExactly | src/async_patterns/patterns/pipeline.py:227-231 | the consumer is dead if and only if an exception of `on_batch` in the main loop escaped both callbacks |
| PipelineAccounts.StartsAgain | src/async_patterns/patterns/pipeline.py:260-267 | a stopped pipeline that is started lets `put` in again and begins with an empty batch; a running one ignores it |
| PipelineAccounts.StopsPuts | src/async_patterns/patterns/pipeline.py:269-291 | after a call of `stop` every `put` raises, and its return makes the pipeline startable |
| PipelineHandOver.HandedExactlyOnce | src/async_patterns/patterns/pipeline.py:158-231 | over a run without cancellation every item given up or in hand was handed over exactly once if and only if no batch was kept after the error callback raised; the hand-overs are the batches plus one for each batch kept |
| PipelineHandOver.KeptIsCount | src/async_patterns/patterns/pipeline.py:227-231 | batches are kept exactly in the steps in which `on_batch` and the error callback raise in the main loop and the outer callback does not |
| PipelineHandOver.LostExactlyWhenCancelled | src/async_patterns/patterns/pipeline.py:283-289 | items are lost if and only if a stop without drain hits a consumer with items in its batch |
| PipelineHandOver.DrainHandsOverExactlyOnce | src/async_patterns/patterns/pipeline.py:233-293 | with no put pending at shutdown, the drain has handed over every accepted item exactly once and in order if and only if no batch was kept |
| PipelineProperties.DrainDeliversEverything | src/async_patterns/patterns/pipeline.py:233-293 | with no producer blocked at shutdown, the stopped consumer has given up every accepted item in order and left the queue empty |
| PipelineProperties.StrandsExactlyWhenBlocked | src/async_patterns/patterns/pipeline.py:136-137 | from shutdown until the drain has found the queue empty, an accepted item can be stranded if and only if a producer is blocked in `put` |
| PipelineProperties.StopStrandsExactlyWhenPutPending | src/async_patterns/patterns/pipeline.py:269-282 | a call of `stop` can leave an accepted item behind if and only if a `put` is pending |
| PipelineProperties.BlockedItemIsStranded | src/async_patterns/patterns/pipeline.py:136-137 | a run of a fresh pipeline in which an accepted item is never taken out |
| PipelineProperties.DrainShape | src/async_patterns/patterns/pipeline.py:233-258 | over any undisturbed run the hand-overs of the drain are the partial batch and then the chunks of the queue |
| PipelineProperties.DrainTerminates | src/async_patterns/patterns/pipeline.py:233-258 | after shutdown the consumer can always go on and each of its steps decreases a measure |
| PipelineHandOver.SizedExactlyUnlessOverfilled | src/async_patterns/patterns/pipeline.py:193-225 | all batches of a run have 1 to `batch_size` items if and only if no item is received on top of a full batch, and then the average is within the size |
| PipelineHandOver.ConfigurationDecides | src/async_patterns/patterns/pipeline.py:158-231 | sizes, average and (unless cancelled) exactly-once hand-over hold in every run if and only if no error callback is configured |
| PipelineHandOver.ReachOvergrown | src/async_patterns/patterns/pipeline.py:227-231 | with any configuration that has an error callback, a run from the start hands a full batch over, keeps it and hands it over again one item larger |
| BufferedWriting.BufferedStorageWriter.WriteLocked | src/async_patterns/persistence/_buffered.py:27-31 | a write opens the target, appends and flushes a full buffer, raising where a target operation fails |
| BufferedWriting.BufferedStorageWriter.EnsureOpenLocked | src/async_patterns/persistence/_buffered.py:63-66 | the target is opened once |
| BufferedWriting.BufferedStorageWriter.FlushLocked | src/async_patterns/persistence/_buffered.py:68-74 | a flush stores the buffer and clears it, or fails and changes nothing |
| BufferedWriting.BufferedStorageWriter.CloseLocked | src/async_patterns/persistence/_buffered.py:52-56 | closing flushes, marks the writer closed and closes the target |
| BufferedWriting.BufferedStorageWriter.WriteBatch | src/async_patterns/persistence/_buffered.py:33-40 | with nobody else at the writer, a prefix of the batch enters the buffer, the whole of it when the call returns |
| BufferedWriting.BatchEntersInOrder | src/async_patterns/persistence/_buffered.py:33-40 | among any other callers and failures, what a `write_batch` has entered is in order a prefix of its batch, and it goes on with exactly the rest |
| BufferedWriting.BatchCompletes | src/async_patterns/persistence/_buffered.py:33-40 | a batch that no failure stopped and no close overtook has entered as a whole |
| BufferedWriting.FlushKeepsInv | src/async_patterns/persistence/_buffered.py:68-74 | a flush that returns leaves the buffer empty and everything stored; one that fails keeps it |
| BufferedWriting.WriteKeepsInv | src/async_patterns/persistence/_buffered.py:22-31 | a write that returns has appended its record and leaves the buffer below `buffer_size` (or empty) |
| BufferedWriting.WritesExactly | src/async_patterns/persistence/_buffered.py:27-31 | a write stores the buffer exactly when its record fills it and the target works, and raises exactly when the target cannot be opened or a full buffer not stored |
| BufferedWriting.StoredInFullBuffers | src/async_patterns/persistence/_buffered.py:27-31 | while writers only write and nothing fails, exactly the full buffers are stored and the remainder of `buffer_size` is buffered |
| BufferedWriting.ClosesExactly | src/async_patterns/persistence/_buffered.py:52-56 | a close marks the writer closed exactly once everything is stored, and closes the target after that |
| BufferedWriting.CloseKeepsInv | src/async_patterns/persistence/_buffered.py:52-56 | the section of `close` under the lock leaves nothing buffered and everything stored when it succeeds |
| BufferedWriting.CloseEmptiesUnlessRaced | src/async_patterns/persistence/_buffered.py:47-56 | a `close` that returns leaves the buffer empty and everything stored, exactly unless the writer was closed already with a record that had slipped in |
| BufferedWriting.RunIsDurable | src/async_patterns/persistence/_buffered.py:22-66 | over every interleaving and failure pattern, stored ++ buffered = appended, and neither is taken back |
| BufferedWriting.ClosedMeansStored | src/async_patterns/persistence/_buffered.py:47-56 | a closed writer no write raced with has stored everything |
| BufferedWriting.ImmutableExactlyWhenNoneRaces | src/async_patterns/persistence/_buffered.py:24-29 | a closed writer can still change if and only if a writer is past the closed check |
| BufferedWriting.StuckUntilFlushed | src/async_patterns/persistence/_buffered.py:42-50 | over every run, a record buffered after closing is stored exactly once an explicit flush has succeeded |
| BufferedWriting.WriteAfterCloseIsStuck | src/async_patterns/persistence/_buffered.py:24-56 | a run of a fresh writer that ends closed with a record buffered and not stored |
| BufferedWriting.Perform | src/async_patterns/persistence/_buffered.py:22-66 | one step of the system is one call on the object |
| BufferedWriting.Replay | src/async_patterns/persistence/_buffered.py:22-66 | a fresh object performs any run of its callers and ends in its last state |
| Streaming.StepKeepsInv | benchmarks/streaming_runner.py:251-321 | every step of the run keeps, whatever the targets do: each writer holds its share of the batches given up and of the current one |
| Streaming.WriterHoldsItsShares | benchmarks/streaming_runner.py:251-254 | in every state of every run what a writer has stored and buffered is its share of the batches, in order |
| Streaming.EveryWriterStoresTheStream | benchmarks/streaming_runner.py:293-321 | on a normal return a writer durably holds the yielded results whose put returned True, in order, and stored + dropped = requests, if and only if no batch failed before all of it had reached that writer |
| Streaming.SuppressedFailureLosesABatch | src/async_patterns/patterns/pipeline.py:239-258 | a run that returns normally although its only accepted result is stored nowhere |
| EndToEnd.StepKeepsInv | benchmarks/streaming_runner.py:285-321 | every step of workers, generator, pipeline and writers keeps the invariants of all parts, and what `run` took is a prefix of what the generator yielded |
| EndToEnd.EveryUrlIsDurableOrDropped | benchmarks/streaming_runner.py:285-321 | on a normal return each input URL is durable in a writer or was dropped by a timed-out put, exactly as often as it was given, if and only if no batch failed before all of it had reached that writer |
| EndToEnd.NeverStuck | benchmarks/streaming_runner.py:285-321 | until `run` returns or raises some step is enabled, and unless a failure killed the consumer one that is neither the timeout of `put` nor that of the generator |
| WorkerPool.RunWithWorkers | src/async_patterns/engine/_async_execution.py:300-334 | for every schedule and pattern of exceptions the call performs a run of the system and ends, and the result URLs are the input as a multiset |
| WorkerPool.StepKeepsInv | src/async_patterns/engine/_async_execution.py:311-325 | every step keeps each URL in one place and the unfinished count equal to queued + in flight, and decreases a measure |
| WorkerPool.RunKeepsEveryUrl | src/async_patterns/engine/_async_execution.py:311-325 | so in every state of every run, and runs are bounded |
| WorkerPool.FetchedInOrder | src/async_patterns/engine/_async_execution.py:311-325 | fetches begin in input order, and the results are those of the fetches in the order they ended, marked exactly if they raised |
| WorkerPool.NeverStuck | src/async_patterns/engine/_async_execution.py:311-325 | some step is enabled exactly while some worker is not done |
| WorkerPool.JoinedMeansAllCollected | src/async_patterns/engine/_async_execution.py:332-334 | `join` can return exactly when the results are the input |
| WorkerPool.AllFinishedMeansAllCollected | src/async_patterns/engine/_async_execution.py:332-334 | finished workers leave no URL behind |
| WorkerPool.InFlightBounded | src/async_patterns/engine/_async_execution.py:327-330 | in every state of every run fetches in flight never exceed the worker count min(`max_concurrent`, n) |
| ResultStream.StreamAll | src/async_patterns/engine/_async_execution.py:129-193 | for every schedule and pattern of exceptions the generator performs a run of the system and ends having yielded the input as a multiset |
| ResultStream.StepKeepsInv | src/async_patterns/engine/_async_execution.py:145-187 | every step keeps each URL in exactly one place, the timeout exit included |
| ResultStream.PlacesAddUp | src/async_patterns/engine/_async_execution.py:134-163 | url queue + busy workers + result queue + yielded = number of URLs |
| ResultStream.StepDecreases | src/async_patterns/engine/_async_execution.py:145-187 | every step decreases a measure |
| ResultStream.NeverStuck | src/async_patterns/engine/_async_execution.py:158-176 | until everything is yielded a worker can move or a result can be yielded, without help from the timeout |
| ResultStream.OverMeansAllYielded | src/async_patterns/engine/_async_execution.py:172-193 | on return everything was yielded and no worker that is cancelled holds a URL |
| ResultStream.RunPlacesEveryUrl | src/async_patterns/engine/_async_execution.py:134-193 | so over whole runs, which are bounded |
| ResultStream.YieldedInOrder | src/async_patterns/engine/_async_execution.py:134-176 | fetches begin in input order, and results are yielded in the order in which the workers handed them on |
| ResultStream.FetchYieldsResult | src/async_patterns/engine/_async_execution.py:145-156 | a fetch leads to a result for its URL, marked exactly if it raised |
| Limiting.SemaphoreLimiter.TryEnter | src/async_patterns/patterns/semaphore.py:90-107 | entering without waiting takes a permit of the current semaphore and counts the task as active |
| Limiting.SemaphoreLimiter.NoteEntered | src/async_patterns/patterns/semaphore.py:102-105 | the active count, total and peak |
| Limiting.SemaphoreLimiter.NoteTimeout | src/async_patterns/patterns/semaphore.py:95-100 | a timeout is counted |
| Limiting.SemaphoreLimiter.Exit | src/async_patterns/patterns/semaphore.py:109-119 | leaving returns a permit to the semaphore that is current now |
| Limiting.SemaphoreLimiter.SetMaxConcurrent | src/async_patterns/patterns/semaphore.py:135-150 | a limit below one is refused, any other replaces the semaphore |
| Limiting.Perform | src/async_patterns/patterns/semaphore.py:81-150 | one step of the system is one or two calls on the object |
| Limiting.Replay | src/async_patterns/patterns/semaphore.py:81-150 | a fresh object performs any run of its tasks and ends in its last state |
| Limiting.StepConserves | src/async_patterns/patterns/semaphore.py:81-150 | permits of all semaphores + holders = sum of all limits ever set, through every step |
| Limiting.RunConserves | src/async_patterns/patterns/semaphore.py:81-150 | so over every run, with the active count exact and below the peak |
| Limiting.EntersExactly | src/async_patterns/patterns/semaphore.py:90-105 | a task comes in exactly with a free permit of the current semaphore and nobody ahead, else it waits on that semaphore |
| Limiting.FiguresAreExact | src/async_patterns/patterns/semaphore.py:121-148 | the reported figures are, over every run, the tasks inside, the most that ever were, everyone let in, the limit last set and the timeouts |
| Limiting.LimitHoldsWithoutResize | src/async_patterns/patterns/semaphore.py:90-119 | with no change of limit, free + holders = limit and active <= peak <= limit |
| Limiting.InPlayChangesExactlyWithOldPermits | src/async_patterns/patterns/semaphore.py:109-119 | between changes, current permits + holders change exactly when an old semaphore's permit is granted or given back |
| Limiting.InPlayOverRun | src/async_patterns/patterns/semaphore.py:109-119 | between changes, current permits + holders grow by the net of the permits granted by and given back to old semaphores |
| Limiting.OldNetBounded | src/async_patterns/patterns/semaphore.py:90-107 | that net is at most the number of callers waiting on old semaphores at the start and at least minus those then granted but not yet resumed |
| Limiting.ResizeAddsHolders | src/async_patterns/patterns/semaphore.py:135-150 | after a change to n with h holders they are n + h plus that net, which lies between minus the granted and plus the waiting callers at the change |
| Limiting.ResizeWithoutWaiters | src/async_patterns/patterns/semaphore.py:135-150 | with nobody waiting at the change they are n + h for good |
| Limiting.NewLimitIsExceededExactly | src/async_patterns/patterns/semaphore.py:135-150 | after a change to n some continuation has more than n tasks inside if and only if there are more than n tasks and, at the change, one holds a permit or could be granted one |
| Limiting.SameLimitAgainAdmitsTwo | src/async_patterns/patterns/semaphore.py:135-150 | a run in which two tasks are inside a limiter with a limit of one, which admits two from then on |
| RetryBudgets.RetryBudget.CheckBudget | src/async_patterns/patterns/retry.py:229-244 | an expired window is replaced; a retry is granted and charged while the key is below the budget |
| RetryBudgets.RetryBudget.ResetBudget | src/async_patterns/patterns/retry.py:366-373 | the key's count is cleared |
| RetryBudgets.Replay | src/async_patterns/patterns/retry.py:229-244 | a fresh object performs any run of checks and resets and ends in its last state |
| RetryBudgets.StepKeepsInv | src/async_patterns/patterns/retry.py:229-244 | every check keeps windows a full length apart, grants inside their window and counts within the budget |
| RetryBudgets.WindowBounded | src/async_patterns/patterns/retry.py:237-244 | one window grants a key at most one budget, plus one per reset |
| RetryBudgets.GrantedExactlyWithinBudget | src/async_patterns/patterns/retry.py:229-244 | a check is granted if and only if fewer retries than the budget were granted to the key since the window began or the key was reset; a window begins exactly with a check a full window after the last start |
| RetryBudgets.StartsApart | src/async_patterns/patterns/retry.py:232-235 | window starts are at least one window apart |
| RetryBudgets.IntervalBounded | src/async_patterns/patterns/retry.py:229-244 | in any half-open interval of k windows' length a key is granted at most k + 1 budgets, plus one per reset of the key |
| Backoffs.AgreesWithConfig | src/async_patterns/patterns/retry.py:149-160 | without jitter the policy's delay is `RetryConfig.calculate_delay` of the next attempt number |
| Backoffs.NeverDecreasesExactly | src/async_patterns/patterns/retry.py:195-216 | delays never decrease, for all draws, exactly when jitter <= 1/3 or the least next delay is capped |
| Backoffs.TotalBounded | src/async_patterns/patterns/retry.py:195-216 | n delays sum to at most n caps and at most base (1 + jitter) (2^n - 1) |
| RetryExecution.Execute | src/async_patterns/patterns/retry.py:290-346 | the loop produces the specified events and end |
| RetryExecution.FromTotals | src/async_patterns/patterns/retry.py:298-346 | how calls, charges, refusals, rejections, exits and sleeps relate from any attempt on |
| RetryExecution.ExecutionAddsUp | src/async_patterns/patterns/retry.py:298-346 | at most `max_attempts` calls; charges = calls on retries; breaker exits = calls + refusals; the reported attempts of a success |
| RetryExecution.SucceedsExactly | src/async_patterns/patterns/retry.py:298-330 | success exactly when some attempt returns a value and all before it failed transiently |
| RetryExecution.EndsExactly | src/async_patterns/patterns/retry.py:298-330 | told from the environment: success, budget refusal or a permanent failure in attempt k if and only if all earlier attempts failed transiently and that one returns, is refused or fails for good; exhausted if and only if all failed transiently |
| RetryExecution.LogInOrder | src/async_patterns/patterns/retry.py:300-313 | a retry is called right after it was charged, and the breaker is left right after the call or refusal |
| RetryExecution.ExitsFailExactly | src/async_patterns/patterns/circuit_breaker.py:274-291 | every breaker exit of an execution is a failure but that of the call that returns the value |
| RetryExecution.TotalSleepBounded | src/async_patterns/patterns/retry.py:332-336 | one execution with n attempts sleeps at most min((n-1) caps, base (1 + jitter) (2^(n-1) - 1)) |
| RetrySystem.StepKeepsInv | src/async_patterns/patterns/retry.py:290-346 | every step of any number of executions, with or without a breaker, keeps the invariants of the shared breaker and budget, ties each execution to the specified loop and each retry call to a grant |
| RetrySystem.RetriesBounded | src/async_patterns/patterns/retry.py:229-244 | over all executions together, `func` is called on retries of a key at most (k + 1) budgets often in any interval of k windows, plus one budget per reset |
| RetrySystem.ExecutionsFollowThePolicy | src/async_patterns/patterns/retry.py:298-346 | in every state each execution has called `func` at most `max_attempts` times, and once over it has done what the loop specifies for what it saw |
| RetrySystem.RequestsAreCallsAndRefusals | src/async_patterns/patterns/circuit_breaker.py:286-287 | absent reset, the shared breaker's `request_count` + calls still running in it = calls of `func` + budget refusals over all executions that were given it |
| RetrySystem.SuccessesAreReturns | src/async_patterns/patterns/circuit_breaker.py:321-324 | absent reset, the shared breaker's `success_count` is the number of executions that returned a value through it |
| RetrySystem.TurnedAwayExactly | src/async_patterns/patterns/retry.py:290-296 | an execution is turned away at its start exactly if it has the breaker and finds it open |
| EngineResults.SortKeeps | src/async_patterns/engine/models.py:106-106 | sorting orders the latencies and keeps every count |
| EngineResults.PercentileMonotone | src/async_patterns/engine/models.py:125-136 | quantiles grow with p from the minimum at 0 to the maximum at 1 |
| EngineResults.PercentileRank | src/async_patterns/engine/models.py:125-136 | at least floor((n-1)p) + 1 values are at or below the quantile, and the rest at or above it |
| EngineResults.HalfIsMedian | src/async_patterns/engine/models.py:101-107 | the quantile at one half is the median |
| EngineResults.QuantileIsLinear | src/async_patterns/engine/models.py:125-136 | between two neighbours the quantile moves linearly with the position (n-1)p |
| EngineResults.PercentilesOrdered | src/async_patterns/engine/models.py:101-123 | p50 <= p95 <= p99, and each has at least floor((n-1)p)+1 of the unsorted results at or below it and n-floor((n-1)p)-1 at or above it |
| EngineResults.ReportedAtTheirPositions | src/async_patterns/engine/models.py:101-123 | on the sorted latencies p50, p95 and p99 lie at 0.5, 0.95 and 0.99 of the last position; without results they are 0 |
| EngineResults.CountsAreAsDocumentedExactly | src/async_patterns/engine/models.py:83-99 | success and error count are the documented ones exactly when no 2xx result has an error, and no error-free result a 1xx or 3xx status; they add up exactly when these are equally many |
| EngineResults.CountsNeedNotAddUp | src/async_patterns/engine/models.py:83-99 | a redirect counts in neither, a 200 with an error in both |
| EngineResults.ErrorBreakdown | src/async_patterns/engine/models.py:138-155 | every key has its exact count, and the total is the errors that are not silent |
| EngineResults.KeyMeans | src/async_patterns/engine/models.py:145-154 | the key of a result is its message up to the first colon, or else "HTTP" and the digits of a status from 400; all others have none |
| EngineResults.HttpKeyMeans | src/async_patterns/engine/models.py:152-153 | reading the digits back gives the status, without a leading zero |
| EngineResults.StreamKeyMeans | benchmarks/streaming_runner.py:295-301 | while streaming every error is filed by its message up to the first colon or else by its status |
| EngineResults.TallyStream | benchmarks/streaming_runner.py:287-308 | the streaming tallies are the documented counts, they add up to the results and every error is filed under its key |

## Left out

- HTTP sessions, response reading, `Retry-After` and pooling strategies: `fetch` and `func` have arbitrary outcomes.
- Logging, log entries, environment defaults, memory tracing, wall-clock timestamps and processing times.
- String matching of transient errors: whether a failure is transient is an argument.
- Record encoding and database statements: storing a batch of records succeeds or fails as a whole, as the SQLite transaction does. A partly written JSONL batch, and the truncation of a JSONL file reopened by a racing write, are not modelled.
- Cancellation of workers and of tasks inside the breaker or the limiter, `AsyncHttpExecutor.close`, and a consumer abandoning the result generator.
- `BatchedWriter.flush`, which waits for an empty queue and not for the consumer's partial batch, and `put_many`, a sequence of puts.
- Two calls of `stop` in progress at the same time: the second could clear the running flag of a pipeline that was restarted in between.
- In `RetrySystem` breaker and budget take their clock readings independently, which only allows more runs.
- Nesting a breaker inside itself and spawning tasks inside its body, which share or copy the context variable.
- `EventLoopMonitor`, the synchronous and threaded engines, the mock server, the benchmark runner and printing, which only add easy members.
- Floating-point rounding: reals are exact.
- BufferedWriting.BufferedStorageWriter.WriteBatch: states the call with nobody else at the writer; batches among other callers are the subject of `BatchEntersInOrder` and `BatchCompletes`.
- TryEnter: whether earlier waiters are queued on a semaphore is an argument of the step; the order in which asyncio wakes waiters is not modelled, every order is allowed.
- Limiting.SemaphoreLimiter.constructor: the error for a limit below one is a precondition, because a constructor has no result.
- TotalSleepBounded: requires a non-negative cap and base and a jitter factor in [0, 1], the values the configuration is meant for.
