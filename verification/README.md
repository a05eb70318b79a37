# sim_logger: a verified model of its asynchronous, rotating and hierarchical parts

This project models the four components of the logging library in which state, interleaving or
scanning make the behaviour hard to see, and proves what they guarantee.

* **The asynchronous sink.** Any number of producers and flushers, one stopper and one worker share a
  bounded ring buffer with three overflow policies, a sticky kick, a stop flag and a generation-counter
  flush handshake. `RingBufferQueue.dfy` holds the ring buffer as a class over an array, each method one
  region under the queue mutex, tied to functions on a plain sequence (`QueueSpec`). `AsyncSink.dfy` is
  the protocol as a transition system over those same functions: one step for each mutex region, atomic
  operation and notification, with all three condition variables as waiter sets.
  `AsyncInvariants.dfy` proves an invariant of every step of every interleaving; `AsyncGuarantees.dfy`,
  `AsyncRecords.dfy` (whose records are accepted and which may be lost), `AsyncOutcomes.dfy` (what changes
  when the wrapped sink throws), `AsyncRepeatedFlush.dfy`, `AsyncShutdown.dfy`, `AsyncProgress.dfy` and
  `AsyncRest.dfy` (the worker left alone) state what users get from it.
* **The rotating file sink.** `FileSinks.dfy` has the file sink and the rotating file sink as classes
  over a directory (a map from names to bytes), each method proved against the relation in
  `RotationSpec.dfy`. `RotationNames.dfy` is the printer and the parser of rotated names,
  `StampOrder.dfy` their order in time;
  `RotationRuns.dfy`, `RotationPlan.dfy`, `Retention.dfy` and `RetentionRuns.dfy` prove theorems about
  every run of writes.
* **The logger tree.** `LoggerNames.dfy` (parent names), `RegistryProtocol.dfy` (concurrent `get_logger`
  calls as a transition system), `Loggers.dfy` (loggers and the registry as objects), `LockedWalk.dfy`
  (concurrent reads of effective settings, lock by lock, with setters in between).
* **The pattern formatter.** `PatternFormatter.dfy`: both scanners as loops, one grammar, and what
  formatting does to it.

## Where the code and its documentation differ

The model follows the code.

* `docs/standalone_usage.md:92-93` promises that a returned `flush()` has written all queued records. The
  worker drains first and loads the requested generation afterwards, so a flush that begins in between,
  with records queued, can return with them still queued. `FlushHonouredIffOutsideWindow` gives the exact
  condition, `OneClientReachesTheWindow` a run with a single client, and `LoadFirstHonoured` shows that
  the promise holds in every run of the other order. As the code stands a client can flush twice:
  `SecondFlushHonoursFirst`.
* The same promise also fails when the wrapped sink throws: the worker swallows and counts the exception,
  goes on, and the flush returns (`ThrowingSinkBreaksPromise`). `PromiseIffNoneThrew` says, for every flush
  that has returned, exactly when what it covers was really written and flushed; with the failure counter,
  which a caller can read, `PromiseKeptIffOutsideWindow` gives the exact condition on the whole promise.
* The shutdown notification is sent without taking the flush mutex. `StrandedIffBetweenTestAndSleep`
  says exactly which served flusher it can leave asleep.
* The rotating sink keeps the newest rotations only while few of them share a second;
  `RetentionIffBounded` has the exact number, computed from the inputs, and `OneTooManyInASecond` an input
  beyond it for every limit.
* What the documentation calls the local default of a logger without parent
  (`logger_core/include/logger/logger.hpp:58-63` and `126-131`) can be read as the value it began with. The
  code keeps the stored value, as the comments on the fields (`179` and `191-192`) suggest: after
  `clear_level_override` or `clear_immediate_flush_override` such a logger still has the value last set.
* Every name except the empty one and `root` seems meant to descend from `root`; `root` followed by dots
  has no parent either (`NoParentIffTop`).

## Model

| member | source | states |
|---|---|---|
| `AsyncOutcomes.PromiseKeptIffOutsideWindow` | docs/standalone_usage.md:92-93 | in every reachable state with no failure counted: a flush begun there that returns with no failure counted finds, in every continuation, all earlier records written or evicted and the wrapped sink flushed after them, if and only if the worker is not between its last empty dequeue and its load of the generation with records queued |
| `AsyncOutcomes.PromiseIffNoneThrew` | logger_core/src/async_sink.cpp:113-132 | for every returned flush, whatever failed: the records it covers were written or evicted and then flushed without an exception if and only if none of their own writes threw and the last flush that did not throw came after them |
| `AsyncOutcomes.ThrowingSinkBreaksPromise` | logger_core/src/async_sink.cpp:113-132 | for every configuration and each way of failing (write, flush or both) a run with one record and a flush begun outside the window that returns with the failures counted and the promise broken |
| `AsyncOutcomes.LoadFirstKeepsPromise` | docs/standalone_usage.md:92-93 | with the generation loaded before the drain, a flush that returns with no failure counted has kept the promise wherever it began |
| `AsyncGuarantees.FlushHonouredIffOutsideWindow` | logger_core/src/async_sink.cpp:113-135 | in every reachable state, a flush begun there delivers, in every continuation, the documented guarantee in terms of hand-outs and attempted flushes if and only if the worker is not between its last empty dequeue and its load of the generation with records queued |
| `AsyncGuarantees.LoadFirstHonoured` | logger_core/src/async_sink.cpp:113-135 | with the generation loaded before the drain, every flush of every run is honoured: all records accepted before it began were handed out or evicted and a flush of the wrapped sink was attempted after them |
| `AsyncGuarantees.OneClientReachesTheWindow` | logger_core/src/async_sink.cpp:113-135 | for every policy, capacity, batch size and record there is a run with one client, two writes and one flush that breaks the documented guarantee |
| `AsyncGuarantees.WindowRun` | logger_core/src/async_sink.cpp:75-87 | from any state in the window, a continuation in which the flush returns with the queue untouched, whoever holds the flush mutex |
| `AsyncRepeatedFlush.SecondFlushHonoursFirst` | logger_core/src/async_sink.cpp:75-135 | in every run, a flush begun after another has returned covers, when it returns in turn, everything accepted before that other one began |
| `AsyncGuarantees.FlushAsCoded` | logger_core/src/async_sink.cpp:75-141 | a returned flush of generation g covers every record accepted when the worker last found the queue empty before loading g: each was evicted or handed out at the place its order gives it, before the wrapped sink's last flush; it covers all earlier records exactly if it began outside the window |
| `AsyncGuarantees.Conservation` | logger_core/src/async_sink.cpp:62-158 | in every reachable state finished attempts = handed out + batch + queued + counted drops + drops still owed by producers, and the failure counter is failed writes plus failed flushes |
| `AsyncGuarantees.Order` | logger_core/include/logger/detail/mutex_ring_buffer_queue.hpp:69-111 | the queue is the unconsumed suffix of the accepted sequence; handed out ++ batch ++ queue is that sequence without exactly the evicted records, and is all of it unless the policy is DropOldest; Block drops nothing before the stop |
| `AsyncRecords.AcceptedAreWritten` | logger_core/src/async_sink.cpp:62-73 | in every reachable state the accepted records were written by pairwise distinct calls, each is the record of its own call, and every call that has finished was either accepted or refused, never both |
| `AsyncRecords.WriteKeepsItsRecord` | logger_core/src/async_sink.cpp:62-73 | a call begun with a record keeps it in every continuation, and if it is accepted there, with that record |
| `AsyncRecords.AttemptEffect` | logger_core/include/logger/detail/mutex_ring_buffer_queue.hpp:69-95 | in every reachable state before the stop: with room the record is appended; on a full queue Block sleeps and changes nothing, DropNewest keeps the queue and rejects, DropOldest replaces the oldest record by the new one; other producers, flags and batch are untouched |
| `AsyncRecords.LostOnlyWhenFull` | logger_core/include/logger/detail/mutex_ring_buffer_queue.hpp:78-90 | before the stop a step that rejects or evicts a record starts with a full queue and a policy other than Block |
| `AsyncRecords.DropOldestRejectsNothing` | logger_core/include/logger/detail/mutex_ring_buffer_queue.hpp:83-90 | DropOldest admits every record offered before the stop, in every reachable state |
| `AsyncRecords.BatchEffect` | logger_core/include/logger/detail/mutex_ring_buffer_queue.hpp:97-111 | a draining step moves the oldest records in order, a full batch unless the queue runs empty, and wakes every blocked producer |
| `AsyncGuarantees.NoFlushRequestLost` | logger_core/src/async_sink.cpp:76-135 | with the worker at its wait and a generation not served, the kick is set or some flusher has still to kick |
| `AsyncGuarantees.NoWakeUpLost` | logger_core/src/async_sink.cpp:85-139 | no worker, producer or flusher sleeps on a true condition without a notification still to come, except a flusher passed by the final notification |
| `AsyncGuarantees.SettledMeansAccounted` | logger_core/src/async_sink.cpp:113-122 | counting positions is enough: each record of a settled prefix is evicted or found among the handed-out records at its own place |
| `AsyncShutdown.ShutdownComplete` | logger_core/src/async_sink.cpp:105-163 | once the worker has left its loop the queue and the batch are empty, every accepted record was handed out or evicted, and after the final flush all of them were flushed |
| `AsyncShutdown.FrozenForever` | logger_core/src/async_sink.cpp:143-163 | in every continuation of such a state nothing more is accepted, evicted or handed out: the final drain finds nothing |
| `AsyncShutdown.StoppedWritesAreDrops` | logger_core/src/async_sink.cpp:62-73 | in every continuation of a reachable state after the stop nothing is accepted, and finished attempts, rejections and drops (counted or still owed) grow by the same number |
| `AsyncShutdown.TooLateNeverReturns` | logger_core/src/async_sink.cpp:161-163 | a flush that takes its generation after the worker's last load returns in no continuation |
| `AsyncShutdown.StrandedIffBetweenTestAndSleep` | logger_core/src/async_sink.cpp:161-163 | at the final notification a served flusher can be left asleep for good if and only if it sits between its test and its sleep |
| `AsyncShutdown.StrandedSleepsOn` | logger_core/src/async_sink.cpp:85-86 | a flusher so stranded stays asleep in every continuation without a spurious wake-up |
| `AsyncShutdown.AServedFlusherCanBeStranded` | logger_core/src/async_sink.cpp:161-163 | that case is reachable under every configuration |
| `AsyncProgress.WaitersAreHelped` | logger_core/src/async_sink.cpp:102-163 | no reachable state before the worker's exit leaves a blocked producer or a kicked flush without an enabled step of the worker, of a pending notification or of the holder of the flush mutex |
| `AsyncProgress.FlushServedWithin` | logger_core/src/async_sink.cpp:102-163 | a kicked flush is served within a number of worker steps computed from queue, batch and worker position plus three for each record accepted meanwhile, however all threads interleave |
| `AsyncProgress.FlushCanStarve` | logger_core/src/async_sink.cpp:113-125 | the dependence on arrivals is real: under every configuration, for every n, a run with n worker steps and steady writes in which a kicked flush is not served |
| `AsyncProgress.BlockedProducerIsWoken` | logger_core/include/logger/detail/mutex_ring_buffer_queue.hpp:78-111 | a producer stays blocked without being woken for at most seven worker steps plus the batch, whatever the others do |
| `AsyncProgress.OvertakenOnlyByAccepted` | logger_core/include/logger/detail/mutex_ring_buffer_queue.hpp:78-95 | without spurious wake-ups and before the stop, a producer whose write stays pending has attempted it at most once more than records of others were accepted meanwhile |
| `AsyncProgress.WorkerApproaches` | logger_core/src/async_sink.cpp:102-163 | every worker step serves a waiting flush or strictly decreases its rank |
| `AsyncRest.WorkerComesToRest` | logger_core/src/async_sink.cpp:100-163 | left alone from any reachable state with the flush mutex free, the worker comes to rest within a computed number of steps: exited if the sink was stopped, else asleep with no kick pending and every kicked flush served; the queue is empty and every accepted record handed out or evicted |
| `AsyncRest.StopRequestEffect` | logger_core/src/async_sink.cpp:47-60 | the whole stop request sets flag and kick, wakes every blocked producer and a sleeping worker, and touches nothing else |
| `AsyncInvariants.ReachableInv` | logger_core/src/async_sink.cpp:47-163 | every reachable state satisfies the whole invariant, for every policy, capacity, batch size and number of threads |
| `AsyncInvariants.StepInv` | logger_core/src/async_sink.cpp:47-163 | every step of every thread keeps it |
| `AsyncInvariants.ControlStep` | logger_core/src/async_sink.cpp:100-163 | the worker's position determines batch, queue, counters and mutex holder |
| `AsyncInvariants.HistoryStep` | logger_core/include/logger/detail/mutex_ring_buffer_queue.hpp:69-111 | every step keeps the queue a suffix of the accepted sequence, within capacity, and the rest an order-preserving selection |
| `AsyncInvariants.AccountingStep` | logger_core/src/async_sink.cpp:62-73 | every step keeps the equation between attempts, acceptances, drops and drops still to be counted |
| `AsyncInvariants.WakeUpsStep` | logger_core/include/logger/detail/mutex_ring_buffer_queue.hpp:118-142 | every step keeps a notification due for every sleeper whose condition holds |
| `AsyncInvariants.KicksStep` | logger_core/src/async_sink.cpp:76-135 | every step keeps the worker on its way to each kicked generation |
| `AsyncInvariants.CoverageStep` | logger_core/src/async_sink.cpp:113-135 | every step keeps stored generations covered by hand-outs and a later wrapped flush, and ties a flush's coverage to where the worker was when it began |
| `AsyncInvariants.KeptAt` | logger_core/src/async_sink.cpp:113-122 | a record that was not evicted stands in the selection at the number of survivors before it |
| `RingBufferQueue.MutexRingBufferQueue.constructor` | logger_core/include/logger/detail/mutex_ring_buffer_queue.hpp:61-67 | an empty valid queue; capacity 0 becomes 1 |
| `RingBufferQueue.MutexRingBufferQueue.PushUnlocked` | logger_core/include/logger/detail/mutex_ring_buffer_queue.hpp:144-148 | appends to the abstract sequence and keeps exactly the counted slots engaged |
| `RingBufferQueue.MutexRingBufferQueue.PopOldestUnlocked` | logger_core/include/logger/detail/mutex_ring_buffer_queue.hpp:150-154 | removes the oldest and disengages its slot |
| `RingBufferQueue.MutexRingBufferQueue.Enqueue` | logger_core/include/logger/detail/mutex_ring_buffer_queue.hpp:69-95 | refines the enqueue step of the protocol for every policy: same outcome, same new queue |
| `RingBufferQueue.MutexRingBufferQueue.DequeueBatch` | logger_core/include/logger/detail/mutex_ring_buffer_queue.hpp:97-111 | moves exactly the oldest min(count, max) records, in order, reading only engaged slots |
| `RingBufferQueue.MutexRingBufferQueue.RequestStop` | logger_core/include/logger/detail/mutex_ring_buffer_queue.hpp:118-125 | sets the stop flag and changes nothing else of the queue |
| `RingBufferQueue.MutexRingBufferQueue.KickForFlush` | logger_core/include/logger/detail/mutex_ring_buffer_queue.hpp:136-142 | sets the kick and changes nothing else of the queue |
| `RingBufferQueue.MutexRingBufferQueue.WaitForWork` | logger_core/include/logger/detail/mutex_ring_buffer_queue.hpp:131-134 | the wait is over exactly if there is work, and only then the kick is consumed |
| `RingBufferQueue.Drain` | logger_core/src/async_sink.cpp:113-122 | draining with any positive batch size delivers the whole queue in order, each record once |
| `RingBufferQueue.WrapIsMod` | logger_core/include/logger/detail/mutex_ring_buffer_queue.hpp:144-154 | index arithmetic modulo the capacity is one conditional subtraction |
| `RotationNames.ParseOfRotatedName` | logger_core/src/rotating_file_sink.cpp:76-218 | parsing undoes printing for every base name, well-shaped stamp and number below 2^32 |
| `RotationNames.ParseAccepts` | logger_core/src/rotating_file_sink.cpp:163-217 | a name parses to (stamp, n) if and only if it is base, dot, well-shaped stamp and nothing (n = 0) or a dot and digits of value n modulo 2^32 |
| `RotationNames.ParseRotationSuffix` | logger_core/src/rotating_file_sink.cpp:159-218 | the scanning loops with 32-bit accumulation compute that parse |
| `RotationNames.RotatedNameInjective` | logger_core/src/rotating_file_sink.cpp:76-83 | different stamps or numbers give different names |
| `RotationNames.ValueOfDecimal` | logger_core/src/rotating_file_sink.cpp:83-83 | the decimal digits of a number are digits and have its value |
| `RotationNames.DecimalShape` | logger_core/src/rotating_file_sink.cpp:83-83 | numbers print as the one digit string of their value without leading zeros |
| `RotationNames.NamesOfASecond` | logger_core/src/rotating_file_sink.cpp:76-83 | literally: the first rotation of a second has no number in its name, the others end in a dot and theirs |
| `RotationNames.ReadNames` | logger_core/src/rotating_file_sink.cpp:163-200 | literally: such names are read back, and names with any other separator are no rotations |
| `RotationNames.BeforeOrder` | logger_core/src/rotating_file_sink.cpp:141-146 | the sort key order is a strict weak order: asymmetric, transitive, with transitive incomparability |
| `StampOrder.LessIsEarlier` | logger_core/src/rotating_file_sink.cpp:141-145 | comparing stamps as strings is comparing the numbers their fourteen digits form |
| `StampOrder.BeforeIsEarlier` | logger_core/src/rotating_file_sink.cpp:141-146 | a rotation sorts before another exactly if its stamp is earlier, or equal with a smaller number |
| `StampOrder.LessIff` | logger_core/src/rotating_file_sink.cpp:141-145 | string comparison is decided at the first position where the strings differ |
| `StampOrder.PrunesEarliest` | logger_core/src/rotating_file_sink.cpp:141-151 | no file that pruning deletes is later than a rotated file that it keeps |
| `RotationSpec.TerminatedLaws` | logger_core/src/file_sink.cpp:107-115 | what is written begins with the line, ends in a newline, adds at most one and none to a line that ends in one |
| `FileSinks.FileSink.WriteLine` | logger_core/src/file_sink.cpp:107-115 | appends the line, newline-terminated, and counts its bytes; fails without effect on a null handle |
| `FileSinks.FileSink.Close` | logger_core/src/file_sink.cpp:129-135 | closes and forgets the count, leaving the directory alone |
| `FileSinks.FileSink.Open` | logger_core/src/file_sink.cpp:137-146 | opens for append, creating a missing file, and counts what is there |
| `FileSinks.FileSink.Reopen` | logger_core/src/file_sink.cpp:148-152 | the same under a new path |
| `FileSinks.RotatingFileSink.Create` | logger_core/src/rotating_file_sink.cpp:38-53 | succeeds exactly for a non-empty path and a positive size; a zero size has already created the file |
| `FileSinks.RotatingFileSink.Write` | logger_core/src/rotating_file_sink.cpp:55-68 | refines the write step of the specification, including every modelled failure |
| `FileSinks.RotatingFileSink.Rotate` | logger_core/src/rotating_file_sink.cpp:70-100 | refines the rotation step: null handle, names exhausted, or renamed, reopened and pruned; these are the modelled failures |
| `FileSinks.RotatingFileSink.UniqueSeq` | logger_core/src/rotating_file_sink.cpp:78-91 | the search loop finds the first free number |
| `FileSinks.RotatingFileSink.Prune` | logger_core/src/rotating_file_sink.cpp:102-157 | deletes exactly the excess candidates, and none that is later in time than a rotated file it keeps |
| `FileSinks.Collect` | logger_core/src/rotating_file_sink.cpp:118-135 | lists every file that parses, once, with its key, whatever the listing order |
| `FileSinks.SortCandidates` | logger_core/src/rotating_file_sink.cpp:141-146 | a sorted list of the same candidates |
| `RetentionRuns.RetentionIffBounded` | logger_core/src/rotating_file_sink.cpp:75-153 | for every limit and every run with non-decreasing stamps, all later than those of the rotated files found: after every write the sink is open and the rotated files are exactly the latest min(n, limit) rotations with their contents and, as far as the limit leaves room, the newest found ones unchanged, if and only if the inputs plan, for each second, at most limit + 1 rotations (10000 without pruning or with a limit of 10000 or more); below that limit openness needs no condition |
| `Retention.PrunedToLatest` | logger_core/src/rotating_file_sink.cpp:118-153 | pruning after one more rotation removes files found at construction first, oldest first, and a rotation, the oldest, only when none of those is left |
| `RetentionRuns.OneTooManyInASecond` | logger_core/src/rotating_file_sink.cpp:75-153 | for every limit, size and stamp there is a run of one long line, written once more than the bound, that is fine up to its last write and not after it |
| `RotationPlan.RotatesExactlyWhenFull` | logger_core/src/rotating_file_sink.cpp:60-67 | in every run a write rotates exactly if its line with the newline it may need would make the base file reach the limit, in terms of the file's size; the rotation then has the write's stamp and the base file holds that line alone |
| `RotationPlan.RotatesAsPlanned` | logger_core/src/rotating_file_sink.cpp:60-67 | as long as the sink is open, the rotations of a run, their order and their stamps, and the byte counter are a function of the size found and the lines alone |
| `RotationPlan.PruningStaysOpen` | logger_core/src/rotating_file_sink.cpp:81-148 | with a limit of 1 to 9999, the sink stays open through every run whatever the stamps if fewer than 10000 rotated files were found, or none of a second written in; from the first rotation on at most limit rotated files are left |
| `RotationPlan.NameIsFree` | logger_core/src/rotating_file_sink.cpp:78-91 | fewer than 10000 rotated files, or none of this second, leave the second a free name |
| `RotationPlan.RunExists` | logger_core/src/rotating_file_sink.cpp:55-157 | every directory and every sequence of lines and stamps has a run: no write blocks and there is always a choice of files to prune |
| `Retention.GoodRotation` | logger_core/src/rotating_file_sink.cpp:75-153 | a rotation whose stamp was used less often than the bound succeeds and keeps retention exact |
| `Retention.BadRotation` | logger_core/src/rotating_file_sink.cpp:75-153 | with pruning, the rotation after limit + 1 of one stamp takes number 0, which pruning has freed, and the bytes just rotated are deleted at once |
| `Retention.FailingRotation` | logger_core/src/rotating_file_sink.cpp:81-91 | without pruning, the rotation after 10000 of one stamp fails and closes the sink |
| `Retention.NextNumber` | logger_core/src/rotating_file_sink.cpp:78-91 | until then the least free number of a stamp is the number of its earlier rotations, pruned ones included |
| `Retention.OnlyRotationsArePruned` | logger_core/src/rotating_file_sink.cpp:118-153 | whatever the stamps and the limit, no write deletes the base file or deletes or changes a file that does not parse |
| `RotationRuns.RotationLosesNothing` | logger_core/src/rotating_file_sink.cpp:55-100 | with unlimited retention, the rotated files in rotation order and the base file concatenate to the initial content and every terminated line; every rename target was fresh and no file was replaced |
| `RotationRuns.SizeBound` | logger_core/src/rotating_file_sink.cpp:60-96 | in every run and under any limit: the byte count is the size of the base file; after a write the base file is below the limit or is that line alone; every other file is as found, or a rotation below the limit, of a single line, or of exactly the content found at construction |
| `RotationRuns.WriteSound` | logger_core/src/rotating_file_sink.cpp:55-68 | one write adds exactly its terminated line to the stream of bytes, or fails, closes the sink and moves no byte |
| `RotationRuns.RunStream` | logger_core/src/rotating_file_sink.cpp:55-68 | while the sink is open, the bytes it answers for are the content found and every line so far, in order |
| `RotationRuns.FirstFreeIsLeast` | logger_core/src/rotating_file_sink.cpp:78-91 | the number chosen is free and the least such; none is found if and only if all 10000 names are taken |
| `RotationRuns.RotationFailsIffNamesExhausted` | logger_core/src/rotating_file_sink.cpp:81-91 | an open sink's rotation fails, and closes it, if and only if all 10000 names of the stamp exist |
| `RotationRuns.ClosedForGood` | logger_core/src/file_sink.cpp:32-51 | once a write of a run has failed, the rest of the run leaves directory, counters and sink exactly as that failure left them, and no file differs from before it |
| `RotationRuns.PruneSpares` | logger_core/src/rotating_file_sink.cpp:118-153 | pruning changes no file, keeps the base file and all that does not parse, and does nothing without a limit |
| `RegistryProtocol.OneLoggerPerName` | logger_core/src/logger_registry.cpp:14-37 | over every interleaving of calls, two finished calls for a name returned the same logger, which is and stays the registered one |
| `RegistryProtocol.CallAnswersItsName` | logger_core/src/logger_registry.cpp:14-37 | a call begun with a name is answered, over every interleaving, with the logger that carries this name and is registered under it |
| `RegistryProtocol.ClosedUnderParents` | logger_core/src/logger_registry.cpp:14-37 | in every reachable state the registry holds the whole parent chain of each name in it, and each logger's parent is the one registered under its parent name |
| `RegistryProtocol.AddsOnlyOwnMissingNames` | logger_core/src/logger_registry.cpp:22-36 | a step of a call adds at most one name, missing before and from the call's own parent chain |
| `RegistryProtocol.CallsFinish` | logger_core/src/logger_registry.cpp:14-37 | each own step brings a call closer to its end and no other call can delay it |
| `RegistryProtocol.StepInv` | logger_core/src/logger_registry.cpp:14-37 | every step of every call keeps the registry and all calls in progress well formed |
| `RegistryProtocol.RunInv` | logger_core/src/logger_registry.cpp:14-37 | so does every run, and entries are only added |
| `LoggerNames.ParentIsSmaller` | logger_core/src/logger_registry.cpp:45-55 | a parent has a strictly smaller rank, so parent chains and the recursion of get_logger end |
| `LoggerNames.NoParentIffTop` | logger_core/src/logger_registry.cpp:45-55 | a name has no parent if and only if it is empty, or root followed by dots |
| `LoggerNames.ParentOfChild` | logger_core/src/logger_registry.cpp:45-55 | the parent of a.b is a, for every a and every b without dots |
| `LoggerNames.ParentOfTopLevel` | logger_core/src/logger_registry.cpp:48-50 | a name without dots, or with a single dot in front, has the parent root, unless it is root or empty |
| `LoggerNames.ParentsLiterally` | logger_core/src/logger_registry.cpp:45-55 | the parents of root, app, .app, app.net and app.net.tcp, literally |
| `LoggerNames.ParentIgnoresTrailingDot` | logger_core/src/logger_registry.cpp:51-53 | a trailing dot does not change the parent |
| `LoggerNames.ChainDescends` | logger_core/src/logger_registry.cpp:45-55 | ranks fall strictly along a parent chain, which ends at a name without parent |
| `LoggerNames.NoDeadlock` | logger_core/src/logger.cpp:25-71 | among any threads that hold locks child to parent and wait for the next, one waits for a lock that none of them holds |
| `LockedWalk.EffectiveReadIsAtomic` | logger_core/src/logger.cpp:14-71 | reading an effective setting lock by lock, with any setters, clearers and other readers interleaving, returns what was effective for the whole chain in one state between the call and its return |
| `LockedWalk.DecidingRead` | logger_core/src/logger.cpp:25-38 | that state is the one in which the deciding logger is read |
| `LockedWalk.StepInv` | logger_core/src/logger.cpp:25-38 | every step keeps the loggers a reader has locked and passed non-overriding |
| `LockedWalk.SomeReaderMoves` | logger_core/src/logger.cpp:25-71 | as long as some read has not returned, one of the reads can take or give back a lock |
| `LockedWalk.ReadsFinish` | logger_core/src/logger.cpp:25-71 | every own step brings a read closer to its return with all locks given back, and no other step touches it |
| `Loggers.EffectiveIsNearest` | logger_core/src/logger.cpp:25-38 | the effective setting is that of the one nearest overriding logger, else the stored one of the top |
| `Loggers.EffectiveLevelIsNearest` | logger_core/src/logger.cpp:25-38 | from the fields alone: the effective level is the one stored in the nearest overriding ancestor along living parents, the logger included, or else in the last one reached |
| `Loggers.EffectiveSinksAreNearest` | logger_core/src/logger.cpp:58-71 | likewise the sinks, with none if nobody reached overrides |
| `Loggers.EffectiveFlushIsNearest` | logger_core/src/logger.cpp:126-139 | likewise immediate flush |
| `Loggers.ReachIsLiving` | logger_core/src/logger.cpp:32-35 | the loggers asked are each the living parent of the one before, up to one without or with an expired parent |
| `Loggers.ReachIsAll` | logger_core/src/logger.cpp:32-35 | if no parent has expired they are all ancestors |
| `Loggers.ChangeReaches` | logger_core/src/logger.cpp:14-71 | a change anywhere on a chain is seen from its head exactly as if nothing below it existed, unless a nearer logger overrides, and then not at all |
| `Loggers.LevelChangeSeenFrom` | logger_core/src/logger.cpp:14-38 | setting or clearing one logger's level changes the effective level of it and of the loggers that reach it without nearer override, to its own effective level, and of no other logger |
| `Loggers.SinksChangeSeenFrom` | logger_core/src/logger.cpp:40-71 | the same for adding, setting and clearing sinks |
| `Loggers.FlushChangeSeenFrom` | logger_core/src/logger.cpp:115-139 | the same for setting and clearing immediate flush |
| `Loggers.Logger.EffectiveLevel` | logger_core/src/logger.cpp:25-38 | the recursive walk over parent objects computes the effective level of the chain of living parents |
| `Loggers.Logger.EffectiveSinks` | logger_core/src/logger.cpp:58-71 | likewise for sinks, with none at a top that does not override |
| `Loggers.Logger.EffectiveImmediateFlush` | logger_core/src/logger.cpp:126-139 | likewise for immediate flush |
| `Loggers.Logger.SetLevel` | logger_core/src/logger.cpp:14-18 | stores the level and overrides |
| `Loggers.Logger.ClearLevelOverride` | logger_core/src/logger.cpp:20-23 | afterwards the parent's effective level holds, or without living parent the level last stored |
| `Loggers.Logger.AddSink` | logger_core/src/logger.cpp:40-44 | appends the sink and overrides |
| `Loggers.Logger.SetSinks` | logger_core/src/logger.cpp:46-50 | replaces the sinks and overrides |
| `Loggers.Logger.ClearSinkOverride` | logger_core/src/logger.cpp:52-56 | stops overriding and forgets the sinks, unlike the other two clearers |
| `Loggers.Logger.SetImmediateFlush` | logger_core/src/logger.cpp:115-119 | stores the flag and overrides |
| `Loggers.Logger.ClearImmediateFlushOverride` | logger_core/src/logger.cpp:121-124 | as for the level: the stored flag stays in effect without a living parent |
| `Loggers.LoggerRegistry.GetLogger` | logger_core/src/logger_registry.cpp:14-37 | one call alone: returns the registered logger, keeps all entries, adds only fresh loggers on the name's chain, with default settings, no override and a living parent, and keeps parents right |
| `Loggers.LoggerRegistry.Clear` | logger_core/src/logger_registry.cpp:40-43 | leaves an empty valid registry |
| `PatternFormatter.DependsExactlyOnTokens` | logger_core/src/pattern_formatter.cpp:77-173 | the token scanner reports a field's token if and only if some change of that field alone changes the formatted output |
| `PatternFormatter.CompositionalIffClosed` | logger_core/src/pattern_formatter.cpp:116-173 | format(p + q) = format(p) + format(q) for all q and all records if and only if every opening brace of p has a closing one after it |
| `PatternFormatter.PrintsItselfIffNoKnownToken` | logger_core/src/pattern_formatter.cpp:116-173 | a pattern prints itself for every record if and only if the token scanner finds no known token in it |
| `PatternFormatter.SubstitutedTextIsNotRescanned` | logger_core/src/pattern_formatter.cpp:140-167 | a field's text appears in the output as it is, whatever braces or tokens it contains |
| `PatternFormatter.TokensLiterally` | logger_core/src/pattern_formatter.cpp:142-151 | the tokens level, sim, met, wall_ns and thread print their own fields |
| `PatternFormatter.OtherTokensLiterally` | logger_core/src/pattern_formatter.cpp:152-161 | so do file, line, function, logger and msg |
| `PatternFormatter.TokenOfRun` | logger_core/src/pattern_formatter.cpp:88-108 | the token scanner reports the name in a braced run |
| `PatternFormatter.TokensConcat` | logger_core/src/pattern_formatter.cpp:77-114 | and of a pattern without unmatched opening braces, its tokens beside those of what follows |
| `PatternFormatter.TokenNamesLiterally` | logger_core/src/pattern_formatter.cpp:97-104 | names are non-empty and made of ASCII letters of either case, digits and underscores |
| `PatternFormatter.ExtractTokens` | logger_core/src/pattern_formatter.cpp:77-114 | the scanning loop collects exactly the well-formed runs of the grammar |
| `PatternFormatter.FormatRecord` | logger_core/src/pattern_formatter.cpp:116-173 | the formatting loop computes the formatting function |
| `PatternFormatter.FormatLoop` | logger_core/src/pattern_formatter.cpp:123-170 | by positions, what the function does by suffixes |
| `PatternFormatter.SubstituteToken` | logger_core/src/pattern_formatter.cpp:140-167 | the chain of comparisons is the table of fields, unknown tokens verbatim |
| `PatternFormatter.FormatIsRender` | logger_core/src/pattern_formatter.cpp:116-173 | formatting renders the segments of the grammar one after the other |
| `PatternFormatter.Create` | logger_core/src/pattern_formatter.cpp:69-75 | construction fails if and only if the met token is demanded and missing |

## Left out

- Weak memory ordering and the width of 64-bit counters: atomic operations are sequentially consistent steps, counters are natural numbers.
- The worker, flushers and producers as running code: threads are a transition system, because the claims are about interleavings; the ring buffer and the drain loop without interference are imperative.
- The exchange that lets only the first of several stop requests through: the destructor calls it once.
- Calls to a sink after its destruction, and exceptions from memory allocation.
- `AsyncGuarantees.FlushHonouredIffOutsideWindow`: speaks of hand-outs and attempted flushes; `AsyncOutcomes` adds what exceptions of the wrapped sink change.
- `AsyncGuarantees.LoadFirstHonoured`: likewise.
- `AsyncProgress.FlushServedWithin`: bounds worker steps; that a runnable thread is eventually scheduled is not part of the model.
- `AsyncProgress.BlockedProducerIsWoken`: bounds the time until the next wake-up, not until the record is accepted, because other producers may fill the queue first; `OvertakenOnlyByAccepted` says how often.
- File system behaviour: one directory as a map from names to bytes, so the directory part of a path, entries that are not regular files, and other writers are not modelled.
- `FileSinks.FileSink.WriteLine`: does not model a short or failing write on an open file.
- `FileSinks.FileSink.Open`: does not model a failing open, nor an unknown file size.
- `FileSinks.FileSink.Reopen`: does not model a failing open.
- `FileSinks.RotatingFileSink.Create`: does not model a failing open.
- `FileSinks.RotatingFileSink.Write`: fails only on a null handle and on exhausted names, not on failing flushes, renames, opens or writes.
- `FileSinks.RotatingFileSink.Rotate`: likewise.
- `FileSinks.RotatingFileSink.Prune`: does not model removals that fail and are ignored.
- `fsync` and the durability of a flush.
- The clock and its formatting: stamps are inputs of the shape eight digits, underscore, six digits.
- `RetentionRuns.RetentionIffBounded`: assumes that stamps do not decrease, neither in the run nor since the files found.
- `std::sort` as an algorithm: an insertion sort stands for it, and nothing relies on the order of equal keys.
- Inheritance of the rotating file sink from the file sink: composition stands for it.
- `Loggers.Logger.EffectiveLevel`: the objects are read in one state; setters in between are in `LockedWalk`, over chains of living parents.
- `Loggers.Logger.EffectiveSinks`: likewise.
- `Loggers.Logger.EffectiveImmediateFlush`: likewise.
- When weak parent references expire: a logger may find its parent expired or alive, whoever dropped it; `clear` racing with `get_logger` is not modelled.
- `set_parent` after construction: the registry calls it before a logger is published.
- Rendering of numbers, levels and thread ids, and locale-dependent character classes: formatting takes the fields as texts, tokens are ASCII.
- `Logger::log`, level tables and parsing, console sink, test sink, time sources, macros and the C interface: thin layers over what is modelled, or small finite tables.
