# Verified model of the log forwarder's delivery core

The log forwarder tails files, groups their lines into records, publishes the records to a sink and remembers in a
watermark store how far each file has been dealt with. This project models the part of it on which delivery depends,
from the bytes of a log file to the watermark on disk, and proves what that part keeps over whole runs: over every
interleaving of its goroutines, every outcome of its sink, dead-letter writes and persists, and every number of crashes
and restarts. `dafny verify dfyconfig.toml` checks all of it.

## How it is modelled

**The publish flusher is a step system** (`FlushProtocol.dfy`). The producer (`Run`, which enqueues, triggers, shuts
down and drains), the goroutine of each flush and the wake loops share one `State`; a step is one critical section, one
channel operation or one call into the environment, and `Next` is the transition function. Every theorem about the
flusher quantifies over all traces from the initial state. Logs in the state (`accepted`, `handed`, `acked`, `dead`,
`lost`, `closes`, `results`, `outcomes`) record what happened. Starting a goroutine is part of the critical section
that starts it. `waitWhileHibernating` keeps the flusher's lock, so no flush completes there. Its two reads of
`hibernating` before the append count as one, the later one.

* `HandOff.dfy`: both failure modes. The hand-off refines a plain queue, flushes exclude each other, batches respect the
  byte budget, shutdown leaves nothing, at most one wake loop lives. `Batches.dfy`: when a record is buffered at once
  and when the buffer is handed over first, so that batches are as full as they can be.
* `Results.dfy`: what a flush returned, read off the trace, is what its channel, its waiter and the caller report.
  `Logs.dfy`: the logs of acknowledged, dead-lettered and lost records and the watermarks, read off the trace too.
* `DeadLetterMode.dfy`, `HibernateMode.dfy` with `Safety.dfy`: conservation, watermark safety and the
  hibernation machine of each mode. `SizeBudget.dfy`: two buffers, twice the budget.
* `Races.dfy`: interleavings in which the code does less than its documentation says, and exactly when a retained batch
  is left without a wake loop. `Forgetting.dfy`: exactly when hibernate mode loses a record, and that it is for good.
  `Passing.dfy`: exactly when a watermark passes an undelivered record.
* `Flusher.dfy`, `PublishBuffer.dfy`: `publishFlusher` as the object it is, with its fields and loops. Wherever the code
  gives up the lock or blocks, the other goroutines run as the schedule `env` says; a ghost trace ties the object to
  the step system, so every theorem over traces holds of the object. A call that is still blocked when the schedule
  ends returns `Blocked`.
* `Pipeline.dfy`: `flushItems` with its outcomes, run without interruption, proved to be a trace of the step system; the
  wake loop; `process` and `exitErr` on the sink, watermark store and truncation modelled elsewhere.
* `Stretches.dfy`: the wake loop, its retry and the end of shutdown with its drain are stretches of the step system as
  well, and what the drain delivers. `Shutdown.dfy`: a nil end of shutdown did not leave a retained batch untried.

**The other layers** are classes with the source's fields, each method proved against a function of the old state:
`Retry.dfy` (retry, duplicates, int64 backoff), `Truncate.dfy` (the binary search, with the exact length of JSON
output), `Watermark.dfy` (memory against disk), `Watcher.dfy` (offsets and lines), `Multiline.dfy` with `Lines.dfy`
(grouping), `DeadLetterFile.dfy` (JSONL framing). `AtLeastOnce.dfy` composes files, watcher, channel, `process` and
store into one system with crashes, for publish_batch off, and `Consumer.dfy` ties its two ends, `readNewLines` and
`process`, to that system's steps.
`BatchedDelivery.dfy` does the same for publish_batch on: files, the flusher's step system, watermarks that may be
persisted at any moment, and crashes. Reading a line, the channel and `process` are one move there.

What the environment decides is a parameter: sink outcomes, failing writes and persists, timers, cancellation, the
schedule, the start pattern, the order in which a map is gone through, what transform, filter and enrichment make of
an event. int64 offsets and counters are unbounded; the backoff wraps as int64 does. A record's encoding is represented
by its length; `encode` stands for its bytes. Strings are sequences of runes and valid UTF-8.

## Where the code and its documentation part

The wiki says that watermarks advance only after a successful publish or dead-letter write (Development.md:38,
Configuration-Reference.md:453), that hibernation stops publishing (Config-Catalog.md:196), that with `wake_enabled`
the stalled batch is retried periodically (Configuration-Reference.md:446), and that delivery is at least once
(Watermarks-and-Restarts.md:120). The model follows the code, which is weaker in these places:

* A flush can start while hibernating: a swap does not look at hibernation again after waiting
  (`internal/pipeline/publish_flusher.go:139-148`) and shutdown flushes in any case. Its batch replaces the retained
  one, or its success clears it. `Races.HibernateCanForget` is a run that loses an accepted record, and
  `Forgetting.FlushOverRetainedForgets` shows that such a flush, left alone, does so unless a wake loop or the drain
  is about to publish the retained batch itself. `Forgetting.ForgetsExactly` says for every step whether it loses a
  record, counting every place that holds one, and `Forgetting.ForgottenForGood` that nothing brings it back; without
  such a flush `HibernateMode.NothingForgotten` holds.
* A batch whose dead-letter write fails is held nowhere, and the next flush clears the error
  (`internal/pipeline/deadletter.go:26-29`, `internal/pipeline/publish_flusher.go:147`): `Races.DeadLetterWriteCanLose`
  is such a run. `Passing.LostExactly` and `Passing.LostPassedExactly` say exactly when a batch is lost and when the
  watermark passes a lost record.
* Filtered and skipped lines move the watermark at once, past records still in the buffer
  (`internal/pipeline/pipeline.go:299-303`): `Races.SkipCanPassBuffered`. The exact conditions are
  `Passing.SkipSafeExactly` in dead_letter mode and `Passing.SkipSafeHibernating` in hibernate mode.
* After a failed publish `exitErr` still processes what the parser holds (`internal/pipeline/pipeline.go:189-199`) and
  can move the watermark past the failed record: `Pipeline.ExitErrCanPass` is such a run, and
  `Pipeline.Processor.ExitErr` gives the exact condition in terms of the held records.
* The wake loop clears `hibernateWakeRunning` some time after its last look at `hibernating`
  (`internal/pipeline/hibernate.go:71-76` and `:96-98`). Hibernation that begins in between starts no loop, and the old
  one exits: the batch stays retained although `wake_enabled` is set. `Races.WakeLoopCanBeLost` is such a run,
  `Races.WakeLoopLostExactly` the exact condition for every step.
* In dead_letter mode hibernation ends only with the process: nothing is retained, so the periodic retries that
  `wake_enabled` promises (Configuration-Reference.md:453) have nothing to publish, while new records wait for
  hibernation to end. `DeadLetterMode.HibernationIsFinal`.
* The backoff is a doubling int64. Validation only asks for max >= initial (`internal/config/pipeline.go:204-208`), so
  a negative initial value or a cap far above 2^62 ns makes it overflow: `Retry.BackoffClosedForm` says exactly when.
* A batch can stay smaller than it has to: `enqueue` hands the buffer over for a record that does not fit, hibernation
  begins, and the context ends while the record waits (`internal/pipeline/publish_flusher.go:51-53` and `:65-70`). The
  record is given up, and a smaller one may come next. `Races.GivenUpLeavesRoom` is such a run, and
  `Batches.BatchesAreMaximal` shows that there is no other way without a timer trigger or shutdown.
* `enqueue` after shutdown returns the context's error, which is nil when the context has not ended, without
  accepting the record (`internal/pipeline/publish_flusher.go:45-47`). `Run` does not call it then.
  `Flusher.PublishFlusher.Enqueue` states both cases.

## Model

| member | source | states |
|---|---|---|
| HandOff.FifoHandOff | internal/pipeline/publish_flusher.go:40-158 | In every reachable state of both modes, the batches given to flushItems in start order, followed by the buffer, are the accepted records: nothing dropped, duplicated or reordered; a running flush works on the batch handed to it. |
| HandOff.FlushExclusion | internal/pipeline/publish_flusher.go:105-173 | At most one flusher-owned flush is in flight; flushRunning holds exactly then and flushDone is its channel; that channel is open, every other one was closed exactly once and has a result. |
| HandOff.ShutdownLeavesNothing | internal/pipeline/publish_flusher.go:90-137 | When the flusher's shutdown has returned nil, the buffer is empty, nothing is in flight and all accepted records were handed over. |
| HandOff.BatchBudget | internal/pipeline/publish_flusher.go:55-73 | The byte counter is exact, and with a byte limit every batch handed over totals at most the limit or is one record larger than it. |
| HandOff.OneWakeLoop | internal/pipeline/hibernate.go:28-39 | At most one wake loop exists, and hibernateWakeRunning tells whether one does. |
| HandOff.NextKeeps | internal/pipeline/publish_flusher.go:40-191 | Every step of every goroutine keeps the queue, channel, size, producer and wake-loop invariants together. |
| HandOff.Reachable | internal/pipeline/publish_flusher.go:25-32 | Those invariants hold after every interleaving from the initial state. |
| HandOff.ProducerStepShape | internal/pipeline/publish_flusher.go:40-158 | Whatever the producer does in one critical section, it moves on, appends one record or starts one flush, and a drain starts only with a retained batch. |
| HandOff.HandStays | internal/pipeline/publish_flusher.go:40-75 | The record that enqueue is at work on is appended, stays in hand, or is given up with an error; no other record is appended. |
| HandOff.NoWakeLoop | internal/pipeline/hibernate.go:28-39 | Without wake_enabled no wake loop ever starts. |
| HandOff.FlagsExactly | internal/pipeline/pipeline.go:299-303 | The two facts about a run on which other theorems depend, that a line was filtered or skipped and that a flusher-owned flush started while hibernating, hold exactly if some step of it did so. |
| Batches.EnqueueDecides | internal/pipeline/publish_flusher.go:55-73 | In every reachable state, the record that enqueue is at is appended at once, with no flush started and nothing handed over, exactly when it fits behind the buffer or there is no byte limit; otherwise enqueue first waits for the running flush, or hands the whole buffer over now. |
| Batches.StartsOnlyWhenFull | internal/pipeline/publish_flusher.go:57-88 | In every run the buffer is handed over whole, and only for a timer trigger, for shutdown, or for a record in hand that does not fit behind it. |
| Batches.BatchesAreMaximal | internal/pipeline/publish_flusher.go:57-73 | Without timer triggers and shutdown, a batch and the record accepted next after it together exceed the byte limit, unless enqueue handed the batch over for a record that it then gave up, cancelled in hibernation. |
| Batches.UncancelledBatchesAreMaximal | internal/pipeline/publish_flusher.go:57-73 | In runs where no call is cancelled there is no exception. |
| Races.GivenUpLeavesRoom | internal/pipeline/publish_flusher.go:51-70 | A run with the exception: a batch that could have held the next accepted record. |
| Results.WaiterSeesItsFlush | internal/pipeline/publish_flusher.go:175-191 | A waiter waits for the newest flush; while it runs it can move, and once it has ended the waiter can move, sees exactly the error which that flush returned, goes on if it is nil, and does not wait again. |
| Results.CompleteReports | internal/pipeline/publish_flusher.go:124-131 | Completing a flush closes its channel once, with exactly what that flush returned, and sets flushErr to it, whichever error it is. |
| Results.ResultsAreReturns | internal/pipeline/publish_flusher.go:160-173 | In every reachable state each result is what that flush returned, and with no flush running flushErr is what the newest returned. |
| Results.InlineFlushSeen | internal/pipeline/publish_flusher.go:105-137 | The flush that shutdown runs itself either can move, or what it returned ends shutdown or starts another round. |
| Results.FailedPersistReachesWaiter | internal/pipeline/publish_flusher.go:160-191 | A watermark update that fails to persist reaches the caller waiting for that flush as the watermark error. |
| Results.ErrorsAreExplained | internal/pipeline/publish_flusher.go:40-137 | An error that enqueue, triggerFlush or shutdown ends with is the context's or what the newest flush returned. |
| Results.CleanShutdownMeansNewestOk | internal/pipeline/publish_flusher.go:90-137 | The flusher's shutdown returns nil only if the newest flush returned nil. |
| Logs.LogsAreHonest | internal/pipeline/publish.go:44-88 | In every run of both modes the acknowledged records are the batches whose publish succeeded, in order, the dead-lettered those whose dead-letter write did, the lost those whose write failed, and the watermarks are those that were set, in order, by the flushes of flusher, wake loop and drain and by filtered or skipped lines. |
| SizeBudget.TwoBuffersBudget | internal/pipeline/publish_flusher.go:57-73 | If every record offered fits the batch limit, the oversized branch is never taken and the buffer plus the flush in flight never exceed twice the limit. |
| Safety.FlushItemsStepSafe | internal/pipeline/publish.go:44-88 | One step of a flush of the newest batch handed over, with all older batches settled, leaves every watermark at a record up to which all accepted records are resolved, if it was so before, and never shrinks a log. |
| Safety.SourcedIsSafe | internal/pipeline/deadletter.go:57-66 | With offsets increasing per file, such watermarks lie before every unresolved accepted record. |
| DeadLetterMode.DeadLetterSafety | internal/pipeline/deadletter.go:14-66 | With nothing filtered or skipped, every accepted record at or behind its file's watermark was acknowledged, is in a dead-letter file or had its dead-letter write fail. |
| DeadLetterMode.DeadLetterSafetyBeforeErrors | internal/pipeline/deadletter.go:14-66 | Before the first flush that returns an error, no watermark is at or past an accepted record that is neither acknowledged nor dead-lettered. |
| DeadLetterMode.LostMeansErrored | internal/pipeline/deadletter.go:26-29 | Only a flush that returned an error loses a batch. |
| DeadLetterMode.ConservedAlways | internal/pipeline/publish.go:44-88 | In every reachable state each accepted record is in exactly one of buffer, flight, acknowledged, dead-lettered and failed dead-letter writes, counted with multiplicity. |
| DeadLetterMode.CleanShutdownConserves | internal/pipeline/publish_flusher.go:90-137 | After a clean shutdown only the last three places hold records. |
| DeadLetterMode.LimitMachine | internal/pipeline/deadletter.go:35-79 | Nothing is ever retained; with no flush in flight the counter is the number of dead-letter flushes completed since the last success, and hibernating holds exactly from the limit on. |
| DeadLetterMode.HibernationIsFinal | internal/pipeline/hibernate.go:60-100 | In dead_letter mode, once hibernating with every flush at its end and the producer between calls or waiting, whatever happens short of shutdown, wake loops included, accepts, publishes and hands over nothing. |
| DeadLetterMode.AlwaysQuiet | internal/pipeline/deadletter.go:46-53 | In dead_letter mode no wake loop and no shutdown drain ever publishes. |
| HibernateMode.HibernatingIffRetained | internal/pipeline/hibernate.go:17-52 | In hibernate mode hibernating holds exactly when a batch is retained. |
| HibernateMode.NothingForgotten | internal/pipeline/hibernate.go:17-69 | If no flusher-owned flush starts while hibernating, every accepted record is acknowledged, buffered, in flight or retained, with the wake loop and the drain running concurrently and lines filtered or skipped at any time. |
| HibernateMode.WatermarksFollowAcks | internal/pipeline/publish.go:59-87 | In the same runs, if nothing is filtered or skipped, no watermark is at or past an unacknowledged accepted record. |
| Races.HibernateCanForget | internal/pipeline/publish_flusher.go:139-148 | Two records, two failing flushes: the first record is not acknowledged and no buffer, retained batch or flush holds it. |
| Forgetting.FlushOverRetainedForgets | internal/pipeline/publish.go:84-85 | A flush that starts over a retained batch and runs alone until it returns nil loses every record outside its own batch that only the retained batch held, whether its publish succeeds or fails. |
| Forgetting.ForgetsExactly | internal/pipeline/hibernate.go:17-52 | In every run in hibernate mode, a step leaves an accepted record unacknowledged and held nowhere, neither in the buffer nor retained nor in a flush of the flusher, the wake loop or the drain that has yet to publish, exactly when the retained batch was the only place that held it and some flush retains another batch or ends hibernation. |
| Forgetting.ForgottenForGood | internal/pipeline/publish.go:44-88 | Such a record stays lost: no later step of any goroutine acknowledges it or holds it again, unless an equal record is enqueued. |
| Races.DeadLetterWriteCanLose | internal/pipeline/deadletter.go:26-29 | A run in which, after a failed dead-letter write, the next successful flush moves the watermark past the lost record. |
| Passing.LostExactly | internal/pipeline/deadletter.go:26-29 | In every dead_letter run, a step loses records exactly when it is a dead-letter write that fails, and then it loses that batch. |
| Passing.LostPassedExactly | internal/pipeline/deadletter.go:57-66 | In every dead_letter run with increasing offsets, a step moves the watermark past a lost record exactly when it sets the watermark of another record of that file in a later flush, or is a filtered or skipped line of that file at or behind the record. |
| Races.SkipCanPassBuffered | internal/pipeline/pipeline.go:299-303 | A skipped line moves the watermark past a buffered record. |
| Passing.SkipSafeExactly | internal/pipeline/pipeline.go:299-303 | In dead_letter mode, the watermark of a filtered or skipped line covers only acknowledged or dead-lettered records exactly when no earlier record of the file is buffered, in flight or lost. |
| Passing.SkipSafeHibernating | internal/pipeline/pipeline.go:299-303 | In hibernate mode, in runs where no flusher-owned flush starts while hibernating, it covers only acknowledged records exactly when no earlier record of the file is buffered, in a flush yet to publish, or retained and unacknowledged. |
| Races.WakeLoopCanBeLost | internal/pipeline/hibernate.go:71-100 | A run without cancellation that ends hibernating, with wake_enabled, a retained batch and no wake loop. |
| Races.WakeLoopLostExactly | internal/pipeline/hibernate.go:20-35 | Any step leaves hibernation without a wake loop that goes on exactly when it cancels the sleep of the loop while hibernating, or when it is the failed or limit-reaching step of a flush that begins hibernation while the old loop is about to exit. |
| Flusher.PublishFlusher.Enqueue | internal/pipeline/publish_flusher.go:40-75 | For every schedule the object stays where the interleaving leads; nil means the record was accepted once and last, an error that it was not, unless it is oversized; a record accepted that fits behind the buffer joined it with nothing handed over, any other one is alone in the buffer after the whole of it was handed over as one batch, and one not accepted left either the buffer as it was or, if it does not fit, an empty one handed over; after shutdown nothing is accepted; it blocks only where the code waits for another goroutine. |
| Flusher.PublishFlusher.EnqueueOversized | internal/pipeline/publish_flusher.go:57-63 | An oversized record is appended at most once and is then alone in the buffer, what was there before having been handed over as one batch; not appended, it leaves buffer and batches as they were; nil means that no flush is running any more. |
| Flusher.PublishFlusher.TriggerFlush | internal/pipeline/publish_flusher.go:77-88 | Nil leaves the buffer empty, handed over as one batch, unless hibernation was on, in which case buffer and batches are untouched; nothing is accepted. |
| Flusher.PublishFlusher.SwapAndStartFlushLocked | internal/pipeline/publish_flusher.go:139-158 | Success means the buffer was handed over behind all earlier flushes; an error leaves it as it was. |
| Flusher.PublishFlusher.WaitForFlushLocked | internal/pipeline/publish_flusher.go:175-191 | Returns nil only with no flush running and the lock held since; an error is that of the newest flush, which has ended, or the context's. |
| Flusher.PublishFlusher.Shutdown | internal/pipeline/publish_flusher.go:90-103 | Nil means an empty buffer, no flush in flight and all accepted records handed over, the last buffer as one batch. |
| Flusher.PublishFlusher.SyncFlushRound | internal/pipeline/publish_flusher.go:105-137 | One round hands over a non-empty buffer as one batch and flushes it, or finds it empty; an error ends shutdown with that error. |
| Flusher.PublishFlusher.Interfere | internal/pipeline/publish_flusher.go:160-173 | Outside the lock the other goroutines do exactly the possible steps of one slice of the schedule, and change neither the buffer nor what was accepted or handed over. |
| Flusher.SlicesAreRuns | internal/pipeline/publish_flusher.go:160-173 | Every run of possible steps of the other goroutines is one that the schedule can ask for, so no interleaving with them is left out. |
| Flusher.StuckCannotMove | internal/pipeline/publish_flusher.go:175-191 | Where a call is reported as blocked, the producer has no step of its own. |
| PublishBuffer.PublishBuffer.Append | internal/pipeline/publish_buffer.go:26-29 | Adds the record last and keeps the counter exact. |
| PublishBuffer.PublishBuffer.Drain | internal/pipeline/publish_buffer.go:31-39 | Returns all records in order and leaves an empty buffer with counter zero. |
| Pipeline.Pipeline.FlushItems | internal/pipeline/publish.go:44-88 | The method run to its end is the step system's flush run to its end, for every outcome of publish, dead-letter write and each watermark update. |
| Pipeline.Pipeline.HandleDeadLetterFlush | internal/pipeline/deadletter.go:14-55 | The same from the failed publish on, with the consecutive-batch limit. |
| Pipeline.Pipeline.AdvanceWatermarks | internal/pipeline/deadletter.go:57-66 | Sets the watermarks in batch order up to and including the first update that fails to persist. |
| Pipeline.Pipeline.RunHibernateWakeLoop | internal/pipeline/hibernate.go:71-100 | The loop's rounds in order until hibernation ends or the sleep is cancelled; the flag is cleared at the end. |
| Pipeline.Pipeline.DrainHibernateBatch | internal/pipeline/pipeline.go:208-217 | Publishes the retained batch if hibernating and there is one, by the same flush, and returns its error. |
| Pipeline.Pipeline.RetryHibernateBatch | internal/pipeline/hibernate.go:60-69 | The same for the wake loop, which drops the error. |
| Pipeline.RunsInTheSystem | internal/pipeline/publish.go:44-88 | An uninterrupted flush is a trace of the step system made of that flush's steps alone, so all theorems over traces apply to it. |
| Pipeline.NilMeansKept | internal/pipeline/publish.go:59-87 | A flush that returns nil left its batch acknowledged, dead-lettered or retained, with watermarks moved over the whole batch in the first two cases and not at all in the third. |
| Pipeline.WakeLoopDelivers | internal/pipeline/hibernate.go:60-100 | Undisturbed, the wake loop publishes the retained batch exactly once, in its first successful round, and ends hibernation; until then it loses nothing and moves no watermark. |
| Stretches.DrainRuns | internal/pipeline/pipeline.go:208-217 | The flush of the drain, run to its end, is a stretch of the step system made of its steps alone. |
| Stretches.ShutdownIsAStretch | internal/pipeline/pipeline.go:200-217 | From the end of flusher.shutdown on, whatever it returned, the producer left alone does what drainHibernateBatch does and stops with its result. |
| Stretches.DrainDelivers | internal/pipeline/pipeline.go:208-217 | From every reachable state in hibernate mode at the clean end of flusher.shutdown with a batch retained, the producer left alone publishes that batch: on success it is acknowledged once, its watermarks are set and hibernation ends; on failure it is retained as before. |
| Stretches.RetryIsAStretch | internal/pipeline/hibernate.go:60-69 | retryHibernateBatch, left alone, is a stretch of the wake loop. |
| Stretches.WakeLoopIsAStretch | internal/pipeline/hibernate.go:71-100 | runHibernateWakeLoop, left alone, is a stretch of the step system that ends where the method ends. |
| Shutdown.NilStopTriedTheBatch | internal/pipeline/pipeline.go:200-217 | In every run in hibernate mode that stopped with nil and a batch retained, the drain or a wake loop flushed exactly that batch after flusher.shutdown had ended, its publish failed and it was retained again. |
| Pipeline.Processor.Process | internal/pipeline/pipeline.go:232-305 | With publish_batch off: a record that is to be sent is published by the full retry discipline, the sink receives only deliveries of its own payload, which carries the event's record with its path, or that record cut in one field, the watermark is set exactly when the event is dropped or some attempt within max_attempts gets through, and any other end leaves it and returns the error. |
| Pipeline.Processor.Prepare | internal/pipeline/pipeline.go:233-296 | Which events are dropped, rejected or sent, in every on_error setting, and that what is sent is the record itself or its minimal cut within the size limit. |
| Pipeline.Processor.SentCarriesEvent | internal/pipeline/pipeline.go:233-296 | What is sent holds the event's path in _path and the transformed or wrapped record everywhere else, or is that record cut in one string field. |
| Pipeline.Processor.FateExactly | internal/pipeline/pipeline.go:233-296 | Whether an event is dropped, sent or rejected is decided by the event, on_error and the size limit before it is processed. |
| Pipeline.Processor.OfferedRunsFit | internal/pipeline/pipeline.go:269-292 | With 0 < max_publish_bytes <= max_bytes and only process offering records, the flusher never takes its oversized branch and its two buffers stay within twice max_bytes. |
| Pipeline.Processor.ProcessAll | internal/pipeline/pipeline.go:219-230 | The held records are processed in order up to the first error; which of them set their watermark is decided by the events, their attempts and their persists before the call. |
| Pipeline.Processor.ExitErr | internal/pipeline/pipeline.go:189-199 | After a failed publish the watermark passes the failed record exactly when some held record of its file gets through and every record held before it is processed without an error; the error returned is the first one and the sink receives payloads of held records only. |
| Pipeline.MarkedPasses | internal/pipeline/pipeline.go:219-230 | Later events move a watermark past an offset exactly when one of them belongs to that file. |
| Pipeline.ExitErrCanPass | internal/pipeline/pipeline.go:189-199 | A run in any pipeline, for any two records of a file that are to be sent: process fails on the first, exitErr publishes the second, the watermark in the store is past the first and the sink received payloads of the second only. |
| Pipeline.ExitErrOutcome | internal/pipeline/pipeline.go:189-199 | With the attempts of that run the condition of ExitErr is met: the failed record does not get through and the held one does. |
| Retry.PublishToSink | internal/pipeline/publish.go:15-28 | One attempt delivers the batch, or a prefix of it on a sequential sink, and reports success exactly when all was delivered. |
| Retry.PublishBatchWithRetry | internal/pipeline/publish.go:109-163 | Nil exactly when the last attempt succeeded; all attempts before it failed and were waited out; at most max_attempts; the sink log grew by what each attempt delivered; the waits are the backoff schedule. |
| Retry.EndsOneWay | internal/pipeline/publish.go:109-163 | Result and number of attempts are decided by what the environment does to each attempt. |
| Retry.PublishedExactly | internal/pipeline/publish.go:132-154 | A publish succeeds exactly when some attempt within max_attempts does and no wait before it is cancelled. |
| Retry.DuplicationLaw | internal/pipeline/publish.go:15-28 | On a sequential sink, success after a attempts leaves a - 1 proper prefixes of the batch followed by the batch. |
| Retry.FailedAttemptsLeavePrefixes | internal/pipeline/publish.go:22-26 | Failed attempts leave one proper prefix each. |
| Retry.BatchSinkOnce | internal/pipeline/publish.go:19-21 | On a batch sink the batch arrives once, or not at all without a successful attempt. |
| Retry.BackoffClosedForm | internal/pipeline/publish.go:156-161 | With wrapping int64 arithmetic, wait k is min(initial * 2^k, max) for every k exactly when no doubling below the cap overflows and initial is not negative. |
| Retry.ModestCapFits | internal/pipeline/publish.go:111-161 | For 0 <= initial <= max <= 2^62 the closed form holds, waits never decrease and stay within the bounds. |
| Retry.TotalWaitBound | internal/pipeline/publish.go:149-161 | The waits between a attempts add up to at most (a - 1) * max. |
| Truncate.TruncateStringField | internal/pipeline/truncate.go:49-98 | Terminates; the field becomes the longest rune prefix that fits with suffix and metadata, followed by the suffix, every other field stays and the metadata holds the original length; fails exactly when the bare suffix does not fit, so the attempt after the loop never succeeds. |
| Truncate.TrialExactly | internal/pipeline/truncate.go:65-69 | Each trial is the record with the field cut to a prefix followed by the suffix, the three metadata keys set and nothing else changed. |
| Truncate.TrialStep | internal/pipeline/truncate.go:66-75 | One rune more makes the payload larger by exactly that rune's JSON size, except for a field that the metadata overwrites. |
| Truncate.TrialMonotone | internal/pipeline/truncate.go:65-81 | Payload size never falls with the length of the prefix, which is what the binary search relies on. |
| Truncate.MembersSizeRemove | internal/pipeline/truncate.go:14-18 | The length of an encoded object does not depend on the order in which its members are added up. |
| Truncate.MarshalPublishPayload | internal/pipeline/truncate.go:13-47 | A record that fits is sent as it is; otherwise what is sent is the record with one string field replaced by its longest fitting prefix and the suffix; nil means within the budget; the input record is unchanged. |
| Truncate.CutExactly | internal/pipeline/truncate.go:32-46 | An oversized record is sent exactly when the bare suffix fits in one of those fields. |
| Truncate.CutPriority | internal/pipeline/truncate.go:20-46 | The field cut is the primary one if that can be cut enough, else _raw if that can, else a longest of the other strings; an error means that none of them can. |
| Truncate.LargestStringField | internal/pipeline/truncate.go:114-136 | For any order of the map range, finds the first of the longest non-empty string fields outside the skipped ones. |
| Watermark.Store.Set | internal/state/watermark.go:114-124 | Updates memory always; the file is written exactly when every update is to be, or the flush_every-th since the last write is reached; a failed write leaves the store dirty and returns the error. |
| Watermark.Store.Flush | internal/state/watermark.go:127-134 | If dirty, a flush that succeeds puts memory on disk and clears dirty and the counter; one that fails, or one of a clean store, changes nothing. |
| Watermark.Store.NewStore | internal/state/watermark.go:62-88 | Loads the file; a missing one starts empty, a corrupt one is refused or archived by option. |
| Watermark.CrashConsistency | internal/state/watermark.go:114-194 | After any updates, flushes, persist failures and crashes, memory replays exactly the surviving updates, the file all but the last updatesSinceFlush, and dirty holds exactly when that is positive. |
| Watermark.DiskIsPastMemory | internal/state/watermark.go:173-194 | The file always equals memory at some earlier moment. |
| Watermark.LagBound | internal/state/watermark.go:163-171 | Without persist failures the file is fewer than flush_every updates behind, and not behind at all in synchronous mode. |
| Watermark.LagExactly | internal/state/watermark.go:163-171 | After k updates alone the file is k mod flush_every updates behind when flush_every is positive, k in interval-only mode and none in synchronous mode. |
| Watermark.FlushedSurvives | internal/state/watermark.go:127-134 | After any updates, flushes, failures and crashes, a successful flush leaves the file equal to memory, and a crash right then takes back no update. |
| Watcher.Watcher.ReadNewLines | internal/watcher/watcher.go:274-299 | The lines considered are, for the positions behind the offset at which a non-blank physical line of the file ends, one event each, in order; those that the channel takes are sent, all of them if it takes all; the offset ends at the end of the file, or behind the line at which shutdown stopped the read. |
| Watcher.Watcher.SendLineEvent | internal/watcher/watcher.go:321-341 | A full channel drops the line in drop mode and stops the read at shutdown in block mode. |
| Watcher.Watcher.TailFile | internal/watcher/watcher.go:204-261 | A known file goes on at its offset; a new one, or one whose inode changed, starts at the watermark if that has its inode and at byte 0 otherwise; from there all its lines are considered in the same way. |
| Watcher.Watcher.InitialOffset | internal/watcher/watcher.go:263-272 | The watermark's offset if it is for this inode; a file that was replaced, or has no watermark, is read from byte 0. |
| Watcher.SplitInvariant | internal/watcher/watcher.go:274-299 | Polling in pieces that end on newlines emits the same events as one read. |
| Watcher.ResumeExact | internal/watcher/watcher.go:263-299 | Starting at the newline-ended offset of any event emits exactly the later events. |
| Watcher.EventsExact | internal/watcher/watcher.go:276-291 | There is an event at an offset exactly when a non-blank physical line ends there. |
| Watcher.EventsCarryLines | internal/watcher/watcher.go:278-287 | Each event carries that line without its line ending. |
| Watcher.EventsAreAllLines | internal/watcher/watcher.go:274-299 | The events of a read are the list of those lines. |
| Watcher.AllLinesUnique | internal/watcher/watcher.go:274-299 | The file and the offset leave only one such list. |
| Watcher.TrimRightExactly | internal/watcher/watcher.go:278 | A line loses all newlines and carriage returns at its end and nothing else. |
| Watcher.EventsOrdered | internal/watcher/watcher.go:279-287 | Event offsets increase strictly and lie in the range read. |
| Multiline.MultilineParser.Feed | internal/parser/multiline.go:38-66 | One line against the buffers: close and open, join, or emit alone. |
| Multiline.MultilineParser.Flush | internal/parser/multiline.go:68-77 | Emits each buffer once, in some order, and empties them. |
| Multiline.ParserRefinesGrouping | internal/parser/multiline.go:38-86 | For any interleaving of files and flushes, the events of one file are the rendered groups of its own lines and its buffer is the open group. |
| Multiline.InterleavingDoesNotMatter | internal/parser/multiline.go:38-77 | Two inputs that agree on a file's lines and the flushes between them give that file the same events and buffer. |
| Multiline.ParserLossless | internal/parser/multiline.go:38-86 | Splitting a file's events at newlines, then its buffered lines, gives back the lines fed. |
| Multiline.OffsetsRise | internal/parser/multiline.go:79-86 | Increasing line offsets give increasing event offsets. |
| Multiline.GroupingLossless | internal/parser/multiline.go:38-77 | The groups and the open group are the file's lines in order. |
| Multiline.GroupsExactly | internal/parser/multiline.go:38-66 | Between flushes, the groups of a file's lines are the only way to cut those lines so that only the first line of a group may match the start pattern, only a line that matches has others joined to it, and a new group begins only at a matching line or behind a line that stands alone. |
| Multiline.FlushSeparates | internal/parser/multiline.go:68-77 | A flush closes the open group, and the lines behind it are grouped as if nothing had come before. |
| DeadLetterFile.Directory.WriteBatch | internal/deadletter/writer.go:39-93 | Success leaves a file that frames exactly the payloads, with its length and metadata, and nothing else changed; failure leaves no file of the batch unless its removal fails too, and says which file is left then. |
| DeadLetterFile.Directory.WriteRecords | internal/deadletter/writer.go:56-68 | Writes one line for each payload, counts its bytes exactly and stops at the first failing write. |
| DeadLetterFile.FramingRoundTrip | internal/deadletter/metadata.go:115-125 | For newline-free payloads the file splits back into exactly them and countJSONLLines counts them. |
| DeadLetterFile.MetadataAgrees | internal/deadletter/metadata.go:84-113 | Removing the metadata of a committed batch leaves its entry as it was. |
| DeadLetterFile.ListedExactly | internal/deadletter/metadata.go:84-113 | A committed batch is listed with its number of payloads and the length of its file, with and without metadata. |
| AtLeastOnce.NothingBehindTheDiskIsLost | internal/pipeline/pipeline.go:232-305 | With publish_batch off, over any crashes and restarts: every non-blank line that ends at or before its file's on-disk watermark was published, filtered or skipped in some run. |
| AtLeastOnce.RestartIsExact | internal/watcher/watcher.go:263-299 | In every run the watcher sends exactly the lines behind the loaded watermark, once each and in order. |
| AtLeastOnce.CrashRedeliversFew | internal/state/watermark.go:163-171 | Of the lines handled in the run that crashes, at most flush_every are delivered again, across all files, and at most one in synchronous mode. |
| AtLeastOnce.CrashesRedeliverFew | internal/state/watermark.go:163-171 | Over any number of crashes, the lines handled in any run that the next run would deliver again number at most flush_every for each run, and at most one for each in synchronous mode. |
| AtLeastOnce.HistoryIsHonest | internal/pipeline/pipeline.go:232-305 | A line counts as handled only if some step of some run published it, filtered it or skipped it. |
| AtLeastOnce.Reachable | internal/pipeline/publish.go:90-107 | The invariant behind the three: per file, watermarks are line boundaries up to which all was handled, and channel plus current event are exactly the rest of what was read. |
| BatchedDelivery.NothingBehindTheDiskIsLost | internal/pipeline/publish.go:44-88 | With publish_batch on, in both failure modes, over any crashes and restarts and any interleaving of producer, flushes and wake loops: every non-blank line that ends at or before its file's on-disk watermark was acknowledged or dead-lettered in some run, or its dead-letter write failed; in hibernate mode as long as no flusher-owned flush started while hibernating. |
| BatchedDelivery.WithoutLossesAllDelivered | internal/pipeline/deadletter.go:14-66 | If no dead-letter write failed in any run, every such line was acknowledged or dead-lettered. |
| BatchedDelivery.EarlierIsHonest | internal/pipeline/publish.go:44-88 | A record counts as delivered in an earlier run only if a run that crashed had it acknowledged or dead-lettered, and as lost only if the dead-letter write of such a run failed. |
| BatchedDelivery.WorldAlways | internal/watcher/watcher.go:204-299 | The invariant behind it: what a run has fed to the flusher of a file is exactly its non-blank lines from the run's watermark to the read position, taken in order, and every watermark is a line boundary up to which all was dealt with. |
| Consumer.Consume | internal/pipeline/pipeline.go:232-305 | One call of process on the event that an interleaving has in process extends that interleaving, leaves the store where it leads, and finishes the event exactly when it gets through. |
| Consumer.ReadOutIsAStretch | internal/watcher/watcher.go:274-299 | Reading a file to its end is a stretch of the interleaving made of reads of single lines. |
| Consumer.Tail | internal/watcher/watcher.go:274-299 | One call of readNewLines with a channel that takes every line is that stretch: it sends the same lines and leaves the same offset. |

## Left out

- Sinks: Kafka, HTTP and file I/O, TLS, timeouts; a sink call succeeds or fails, and a failed batch call delivers nothing. A batch sink that delivers part of a failed batch is not modelled.
- Files: fsnotify, globbing, scanning, rotation by rename, read and open errors, copytruncate. A file is a growing byte sequence with an inode; a file shorter than the offset reads as empty.
- Timers, tickers and contexts are steps that may happen at any time. A wake_interval of zero or less, with which the wake loop exits at once, is not modelled.
- A parser flush that fails ends Pipeline.shutdown before the flusher's shutdown; in the step system a shutdown begins with the flusher's.
- Liveness under a sink that never recovers.
- JSON encoding beyond its length; marshalling errors; invalid UTF-8. The watermark file's JSON is taken to round trip.
- Regular expressions, transformers, filters, enrichers and timestamps: the transformed record and the filter's verdict are given with the event, and `_path` is set last.
- Configuration tables and defaults, except for the bounds that the proofs take as premises; validateDeadLetterPath.
- Metrics, readiness, logging, the failure reason kept while hibernating, dead-letter metadata other than count and size, a metadata file cut short by a failing write, batch file names.
- ListEntries' directory scan, the archiving of a corrupt watermark file and its failure; permissions.
- A pipeline without a watermark store; the store in the model is always present in process.
- Data races on runCtx, and the status calls that only read (activeBytes, HibernatingSnapshot, ConsecutiveDLQSnapshot).
- Pipeline.WakeLoopDelivers: speaks of a wake loop that no flush or drain disturbs and of rounds whose watermark updates persist; the interleaved loop is covered by HibernateMode.
- BatchedDelivery.NothingBehindTheDiskIsLost: line parser, on_full: block, nothing filtered or skipped, files that grow by whole lines and keep their inode; `Passing` shows when filtered lines break it.
- AtLeastOnce.NothingBehindTheDiskIsLost: line parser, on_full: block, files that grow by whole lines, persists that succeed, and a run that stops at the first failed publish; with the multiline parser `Pipeline.Processor.ExitErr` shows when it fails.
