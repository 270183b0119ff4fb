# Schengen: a verified model of the table writers and the row generators

Schengen splits each TPC-H table into partitions, generates them concurrently, and must still produce what a
single-threaded run would. This project models the parts that promise rests on and proves it.

**The concurrent writers** (`Ring`, `RingProperties`, `RingRuns`, `RingOutcome`, `RingWitness`, `OrderedSink`,
`OrderedConsumer`, `ConsumerProperties`, `MultiplexedWriter`, `MultiplexedOutcome`, `MultiplexedClosing`,
`MultiplexedCalm`, `MultiplexedEnds`, `MultiplexedRuns`, `MultiplexedWitness`, `OwnFile`, `OwnFileOutcome`,
`OwnFileEnds`, `OwnFileWitness`, `PartitionFiles`, `PartitionFilesEnds`, `ParquetMerge`, `ParquetPieces`,
`ParquetConsumer`, `ParquetWorkers`, `ParquetOneWorker`, `ParquetOutcome`, `ParquetClosing`, `ParquetHang`,
`ParquetWitness`). Threads are labelled transition systems: one action is one
atomic operation, and any number of threads interleave them freely, with sequentially consistent memory and unbounded
positions. Waiting on a condition variable is a retry of the loop around it. Code that one thread runs alone, such as
`drain_ready_partitions` and `process_buffer`, is a class whose methods are proved equal to functions on values; the
transition systems use those functions. The sink is the sequence of calls it accepted, and an arbitrary function
decides which calls it refuses. Thrift is a codec; where a theorem needs its reader to invert its writer, it says so
for the metadata in question.

**The row generators** (`CInt`, `Lehmer`, `Distribution`, `Dates`, `Partition`, `Keys`, `Scaling`, `Batches`,
`Lineitem`, `Orders`, `PartSupp`, `Supplier`, `Columns` and a `…Columns` module for each table, `CrossTable`). Every column draws from a Lehmer stream of its own, with
a budget of draws per row. Each table has a function that says what row number k is, from the seeds alone; each
iterator is a class whose methods are proved to hand out exactly those rows. Partition independence, agreement between
tables and value ranges are lemmas about these functions, and the `…Columns` modules give every column of every row in
closed form: the seed of one numbered draw of the column's stream, scaled by an exact quotient.

**Both together** (`EndToEnd`): rows cut into batches, through the multiplexed writer, are the rows of one
un-partitioned run.

Integers that the code narrows to 32 bits are narrowed explicitly, products that the code computes in 64 bits are shown
to fit, and C++ division truncates.

## What turned out differently

- *Capacity 1.* In a ring with one slot "published" and "free" are the same number, so a producer can overwrite an
  unread value. The constructor and `--write-queue-capacity 1` allow it, and the multiplexed writer then can return 0
  having lost a batch, which its `expected_part` check does not notice (`MultiplexedWitness.OneSlotLosesABatch`). The
  exact condition is a capacity of at least 2: `RingWitness.FifoExactlyFromTwoSlots` for the ring,
  `MultiplexedWitness.SequentialExactlyFromTwoSlots` for the writer,
  `EndToEnd.MultiplexedRunWritesTheTableExactlyWhen` for tables. A single Parquet worker also has a one-slot queue, but
  there a lost part leaves `expected_part` behind, so return code 0 keeps its meaning
  (`ParquetOutcome.ReturnsZeroOnlyIfMerged`).
- *Pop before Close.* `Pop` loads the sequence before the closed flag. A publish and a `Close` between the two loads
  make it return false with a value queued (`RingWitness.EmptyPopCanLeaveAValue`). The ordered writers notice through
  `expected_part`; the pipeline of `GeneratePartitionToOwnFile` does not. For every partition with a batch it can
  return 0 without the last one (`OwnFileWitness.LosesItsLastBatch`), and for every partition it can return 0 after its
  generator threw (`OwnFileWitness.SwallowsException`). Return code 0 means a complete file exactly for partitions
  without a batch (`OwnFileWitness.CompleteInEveryRunExactlyWhen`), also when no generator ever throws. The return code of
  `RunParallelPartitionFiles` inherits this: it speaks of parts whose generation returned 0. For the multiplexed writer
  the race is the only thing that can fail a run in which nothing is thrown or refused
  (`MultiplexedCalm.CalmRunReturnsZeroExactlyWhen`).
- *Parquet files of the parts.* `GeneratePartitionToInMemory` (`src/Storage/write_scheduler.cpp:548-636`) has the same
  two-slot pipeline with the same unchecked end, so a part's in-memory file may lack its last batch or hide a generator
  error although its status is ok. The Parquet theorems take these files as given: return code 0 means that all of them
  were merged, not that each holds all rows of its part.
- *An exception in a Parquet worker.* The worker then never takes itself off `remaining_workers`
  (`src/Storage/write_scheduler.cpp:1109-1133`), so unless something else fails the result queue stays open and the
  consumer waits for ever: the message "worker task threw exception" is never reached that way
  (`ParquetClosing.ThrowKeepsQueueOpen`, `ParquetHang.SomeRunHangs`). The other three writers can always return
  (`MultiplexedEnds.CanAlwaysReturn`, `OwnFileEnds.CanAlwaysReturn`, `PartitionFilesEnds.EveryRunIsShort`), the
  multiplexed one if there is a part at all (`MultiplexedEnds.NoPartsNeverReturn`).
- *The year 2000.* `IsLeapYear` has no leap day in 2000. `Dates.CivilAgreesExactlyWhen` gives the exact last date for
  which the printed and the stored day agree; no generated date comes near it.
- *NextInt(0, INT32_MAX)*, used for addresses, returns the negated seed and so never a positive number
  (`Lehmer.ValueOnWrappedRange`).
- *partsupp Reset* keeps the supplier number of an unfinished part (`PartSupp.ResetIsFreshExactlyWhen`).
- The text at `doc/tables.md:100-101` describes the search for a living customer as +1, -1, +2, -2; the code steps by
  one only, and one step is always enough (`Keys.LivingCustomerIsValid`).
- The comment at `src/Common/distribution.h:11-12` says samples run up to the sum and a token is taken when its
  cumulative weight is at least the sample; the code samples below the sum and compares strictly
  (`Distribution.PickedExactlyWhen`).

## Model

| member | source | states |
|---|---|---|
| Ring.Init | src/Storage/write_scheduler.cpp:158-166 | a ring never has fewer than one slot, whatever capacity is asked for; every slot starts free for its own position, the positions at 0, the ring open |
| Ring.IndexIsRemainder | src/Storage/write_scheduler.cpp:267-270 | the slot of a position, computed here by repeated subtraction, is the remainder by the capacity |
| Ring.IndexDistinct | src/Storage/write_scheduler.cpp:267-270 | positions of one window of capacity consecutive positions use different slots |
| Ring.IndexOnto | src/Storage/write_scheduler.cpp:267-270 | every slot is the slot of a position of the window |
| Ring.ActionFrame | src/Storage/write_scheduler.cpp:168-253 | what one atomic operation of Push, Pop or Close does to the accepted and delivered histories, the closed flag and every other thread |
| Ring.InitInv | src/Storage/write_scheduler.cpp:158-166 | the ring invariant holds at the start, for capacity 2 and up |
| Ring.ReserveHasRoom | src/Storage/write_scheduler.cpp:177-184 | a slot whose sequence says free for the enqueue position means that fewer than capacity positions are live; this is where capacity 2 is needed |
| Ring.PushStepInv | src/Storage/write_scheduler.cpp:168-206 | every atomic operation of Push keeps the invariant; in particular a slot seen free for pos stays free for pos until pos itself is reserved |
| Ring.PopStepInv | src/Storage/write_scheduler.cpp:208-243 | every atomic operation of Pop keeps the invariant |
| Ring.StepInv | src/Storage/write_scheduler.cpp:168-253 | every atomic operation of any thread keeps the invariant: window bounds, each slot in the state of its live position, each producer entitled to its slot, deliveries a prefix of acceptances |
| Ring.RunInv | src/Storage/write_scheduler.cpp:168-253 | the invariant holds at the end of every run from a state where it held |
| Ring.ReachableInv | src/Storage/write_scheduler.cpp:168-253 | the invariant holds in every reachable state of a ring with two slots or more |
| RingProperties.RefinesQueue | src/Storage/write_scheduler.cpp:168-253 | refinement: the successful compare-exchange is enqueue, the move out of the slot is dequeue of the oldest item, Close closes, every other operation leaves the queue unchanged |
| RingProperties.PopReturnsNextAccepted | src/Storage/write_scheduler.cpp:208-224 | in every reachable state the delivered values are the oldest accepted ones in order, and a Pop that returns true returns the next of them |
| RingProperties.InHandStep | src/Storage/write_scheduler.cpp:217-224 | a value leaves its slot, is in the hands of Pop, and is counted delivered, in one step |
| RingProperties.ProducerOrderKept | src/Storage/write_scheduler.cpp:168-206 | at every capacity, what the ring accepted from one producer is what its Push calls returned true for, in program order |
| RingProperties.ExclusiveSlots | src/Storage/write_scheduler.cpp:182-190 | no two threads are ever about to touch the value of the same slot |
| RingProperties.SlotPhases | src/Storage/write_scheduler.cpp:177-224 | every slot belongs to exactly one live position and is free, reserved or published for it, never two of these; at most capacity positions are live |
| RingProperties.EmptyLoadMeaning | src/Storage/write_scheduler.cpp:212-228 | Pop finds nothing to read exactly when everything accepted was delivered or the oldest value is not published yet |
| RingProperties.SealedStep | src/Storage/write_scheduler.cpp:172-175 | once closed with no Push under way, nothing more is accepted |
| RingProperties.DrainAfterClose | src/Storage/write_scheduler.cpp:208-253 | if every Push returned before Close, a Pop whose sequence load comes after Close returns false only when everything was delivered |
| RingWitness.OneSlotOverwrites | src/Storage/write_scheduler.cpp:158-220 | with one slot, published and free are the same number: a reachable state in which a second Push overwrote the unread first value |
| RingWitness.FifoExactlyFromTwoSlots | src/Storage/write_scheduler.cpp:155-297 | every reachable state is FIFO if and only if the capacity is at least 2 |
| RingWitness.EmptyPopCanLeaveAValue | src/Storage/write_scheduler.cpp:212-231 | Pop can return false with a published value still queued, when publish and Close fall between its two loads |
| RingOutcome.FalseOnlyWhenClosed | src/Storage/write_scheduler.cpp:168-253 | at every capacity, in every reachable state: a Push or a Pop about to return false stands in a closed ring |
| RingOutcome.PushAloneExactly | src/Storage/write_scheduler.cpp:168-206 | a Push that nobody interrupts returns true if and only if the ring is open and has room, false if and only if it is closed, and otherwise waits |
| RingOutcome.PopAloneExactly | src/Storage/write_scheduler.cpp:208-243 | a Pop that nobody interrupts returns the oldest accepted value if and only if that is published, false if and only if it is not and the ring is closed, and otherwise waits |
| RingOutcome.PushAloneReturns | src/Storage/write_scheduler.cpp:168-206 | wherever a Push stands, also with a stale position, it can return within eight operations once the ring is closed or has room |
| RingOutcome.PopAloneReturns | src/Storage/write_scheduler.cpp:208-243 | wherever a Pop stands it can return once the ring is closed or a value is there |
| OrderedSink.RunForeignStreamingOrdered | src/Storage/write_scheduler.cpp:1616-1726 | the sequential loop returns 0 if and only if the sink refused nothing and no generator threw, and then the accepted calls are Open, one bracket per part in order, Close; however it ends, what was written is a prefix of all batches in part order, and a sink that was opened is closed by the last call |
| OrderedSink.WritePartition | src/Storage/write_scheduler.cpp:1670-1701 | one part of the loop: Begin, each batch in order, End, stopping at the first refusal or throw with the first batches of the part written |
| OrderedSink.SameBatches | src/Storage/write_scheduler.cpp:1481-1533 | leaving out the brackets of empty parts, as the multiplexed writer does, changes no batch and no order |
| OrderedConsumer.OrderedConsumer.DrainReadyPartitions | src/Storage/write_scheduler.cpp:1472-1536 | the nested loops over the states map terminate and do to states, expected_part and sink what Drain says, stopping at the first refused call |
| OrderedConsumer.OrderedConsumer.Receive | src/Storage/write_scheduler.cpp:1552-1562 | storing a batch or an end mark and draining |
| ConsumerProperties.StartConsistent | src/Storage/write_scheduler.cpp:1466-1470 | the consumer starts consistent with having received nothing |
| ConsumerProperties.DrainKeeps | src/Storage/write_scheduler.cpp:1472-1536 | draining keeps: buffers hold exactly the received batches not yet written, and the sink accepted exactly the calls that lead to the point reached (Begin, Write+, End with ascending parts, nothing for an empty part), whatever the sink refuses |
| ConsumerProperties.StoreKeeps | src/Storage/write_scheduler.cpp:1552-1560 | storing a message that its part may send next keeps the invariant |
| ConsumerProperties.ErrorKeeps | src/Storage/write_scheduler.cpp:1541-1550 | an error message changes nothing the invariant speaks of |
| ConsumerProperties.DrainExhausts | src/Storage/write_scheduler.cpp:1473-1517 | a drain that is not refused stops only where nothing is left to write and no end mark was received |
| ConsumerProperties.DrainCompletes | src/Storage/write_scheduler.cpp:1591-1597 | once every part has ended, an unrefused drain writes all brackets of non-empty parts |
| ConsumerProperties.WrittenIsPrefix | src/Storage/write_scheduler.cpp:1498-1511 | the batches written so far are a prefix of all batches in part order |
| ConsumerProperties.NothingLost | src/Storage/write_scheduler.cpp:1459-1560 | for every part, written followed by buffered is exactly what was received |
| MultiplexedWriter.ProducerMoveInv | src/Storage/write_scheduler.cpp:1378-1456 | every step of a producer keeps the system invariant: its accepted messages are its batches in order, and an end mark only after all of them, because stop_requested never goes back to false |
| MultiplexedWriter.ConsumerMoveInv | src/Storage/write_scheduler.cpp:1538-1613 | every step of the consumer keeps the system invariant |
| MultiplexedWriter.MoveInv | src/Storage/write_scheduler.cpp:1371-1613 | every atomic step of the whole system keeps the invariant |
| MultiplexedWriter.ExecutionInv | src/Storage/write_scheduler.cpp:1371-1613 | the invariant holds after every execution, at every queue capacity from 2 |
| MultiplexedWriter.ReturnsZeroOnlyIfSequential | src/Storage/write_scheduler.cpp:1371-1613 | every interleaving that returns 0 made the sink accept exactly Open, the brackets of the non-empty parts in part order, and Close: the batches of the sequential loop in its order |
| MultiplexedWriter.WritesAreAlwaysAPrefix | src/Storage/write_scheduler.cpp:1472-1613 | at every moment of every run, also a failing one, the written batches are a prefix of the sequential output |
| MultiplexedWriter.PopsRealMessages | src/Storage/write_scheduler.cpp:1538-1539 | Pop never hands the consumer a moved-from message |
| MultiplexedOutcome.DrainRefuses | src/Storage/write_scheduler.cpp:1485-1528 | a drain reports failure exactly when the sink refused one of its calls |
| MultiplexedOutcome.FinishReaches | src/Storage/write_scheduler.cpp:1591-1600 | the final drain reaches part_count + 1 exactly when every end mark was received |
| MultiplexedOutcome.ReturnsZeroExactlyWhen | src/Storage/write_scheduler.cpp:1538-1613 | the return code is 0 if and only if no sink call was refused, no error message received, every producer returned 0 and every end mark was received; so the value lost to the Pop race is always reported |
| MultiplexedClosing.JoinsOnlyWhenClosed | src/Storage/write_scheduler.cpp:1371-1613 | at every capacity: the consumer stops popping, and a producer gives up on Push, only when the queue is closed, and it is closed only after a stop was requested or all producers counted down |
| MultiplexedClosing.LastProducerCloses | src/Storage/write_scheduler.cpp:1451-1454 | once all producers have ended the queue is closed |
| MultiplexedClosing.FailureStopsProducers | src/Storage/write_scheduler.cpp:1541-1570 | after a failure the stop flag is set and the queue closed before the next Pop |
| MultiplexedClosing.StopIsHeeded | src/Storage/write_scheduler.cpp:1403-1424 | once a stop is requested no producer starts another batch |
| MultiplexedClosing.ClosesTheSinkLast | src/Storage/write_scheduler.cpp:1349-1613 | however a run ends, the sink was asked to open first and to close exactly once, last |
| MultiplexedCalm.CalmRunReturnsZeroExactlyWhen | src/Storage/write_scheduler.cpp:1371-1613 | when no generator throws and the sink refuses nothing, the return code is 0 if and only if the last Pop left nothing in the queue, which is if and only if every end mark was received |
| MultiplexedCalm.ProducersEndInOrder | src/Storage/write_scheduler.cpp:1381-1456 | in every run: a producer returns 0 only after its end mark was accepted or a stop was requested, and an error only after a stop was requested |
| MultiplexedEnds.CanAlwaysReturn | src/Storage/write_scheduler.cpp:1371-1613 | no deadlock: from every reachable state, after any throws, refusals and failures, some continuation returns |
| MultiplexedEnds.NoPartsNeverReturn | src/Storage/write_scheduler.cpp:1371-1613 | without a part nobody closes the queue and the call never returns |
| MultiplexedWitness.OneSlotLosesABatch | src/Storage/write_scheduler.cpp:1371-1613 | with one slot, a run over two batches that returns 0 having written only the second: expected_part does not notice |
| MultiplexedWitness.SequentialExactlyFromTwoSlots | src/Storage/write_scheduler.cpp:1371-1613 | for the queue capacity: every run over every plan and sink that returns 0 wrote the sequential output if and only if the capacity is at least 2 |
| MultiplexedWitness.PrefixExactlyFromTwoSlots | src/Storage/write_scheduler.cpp:1472-1613 | every run writes prefixes of the sequential output only, if and only if the capacity is at least 2 |
| MultiplexedWitness.SomeRunReturnsZero | src/Storage/write_scheduler.cpp:1371-1613 | for every plan with a part and every capacity from 2, some run does return 0 |
| OwnFile.FileIsAlwaysAPrefix | src/Storage/write_scheduler.cpp:430-458 | the partition file always holds a prefix of the batches |
| OwnFile.CompleteExactlyWhen | src/Storage/write_scheduler.cpp:385-488 | a run that returned 0 left a complete file if and only if all batches had been published when its last sequence load of Pop was made |
| OwnFile.CompleteWhenLoadFollowsClose | src/Storage/write_scheduler.cpp:425-460 | with return code 0 it is complete when that load came after the queue was closed |
| OwnFileOutcome.ReturnsZeroExactlyWhen | src/Storage/write_scheduler.cpp:425-488 | the return code is 0 or 2, and 0 if and only if no write or close failed and no error message was received |
| OwnFileOutcome.JoinsOnlyWhenClosed | src/Storage/write_scheduler.cpp:385-460 | the writer stops popping only when the queue is closed; the producer always closes it at its end; it is closed earlier only after a failure, which also sets the stop flag |
| OwnFileOutcome.StopIsHeeded | src/Storage/write_scheduler.cpp:385-408 | once the stop flag is set the producer starts no other batch |
| OwnFileEnds.CanAlwaysReturn | src/Storage/write_scheduler.cpp:385-488 | no deadlock: from every reachable state some continuation returns |
| OwnFileWitness.LosesItsLastBatch | src/Storage/write_scheduler.cpp:385-488 | for every partition with a batch, a run without exceptions that returns 0 and wrote all batches but the last |
| OwnFileWitness.SwallowsException | src/Storage/write_scheduler.cpp:409-426 | for every partition and every k, a run in which the generator throws after k batches and the return code is 0 |
| OwnFileWitness.CompleteInEveryRunExactlyWhen | src/Storage/write_scheduler.cpp:385-488 | return code 0 means a complete file in every run if and only if the partition has no batch |
| OwnFileWitness.CompleteInEveryThrowFreeRunExactlyWhen | src/Storage/write_scheduler.cpp:385-488 | the same when the generator never throws |
| PartitionFiles.ResolveWorkerCount | src/Storage/write_scheduler.cpp:43-51 | at least one worker, never more than parts, never more than configured when that is not 0 |
| PartitionFiles.StepInv | src/Storage/write_scheduler.cpp:650-695 | every atomic step keeps: parts handed out as 1, 2, 3, ..., each held by its taker or with an outcome, skipped or failed only with an error stored or about to be |
| PartitionFiles.ErrorsAreNeverReset | src/Storage/write_scheduler.cpp:665-695 | a stored error never becomes 0 again, and a part is skipped only after one is stored |
| PartitionFiles.ReturnsZeroExactlyWhen | src/Storage/write_scheduler.cpp:650-695 | for any number of workers and any interleaving, 0 is returned if and only if every part was generated; then each part number was handed out exactly once |
| PartitionFiles.ErrorIsSomePart | src/Storage/write_scheduler.cpp:665-695 | a return code other than 0 is the one some part failed with, or 2 for a part whose generation threw |
| PartitionFiles.FlagsAreHeeded | src/Storage/write_scheduler.cpp:656-675 | once the stop flag is set no generation begins; once the dispenser is closed no worker goes to fetch another part |
| PartitionFilesEnds.EveryRunIsShort | src/Storage/write_scheduler.cpp:650-695 | every interleaving ends: it has at most 3 W + 5 N + 1 steps for N parts and W workers |
| PartitionFilesEnds.CanGoOn | src/Storage/write_scheduler.cpp:650-695 | and it does not end before the call returns |
| ParquetMerge.LittleEndianRoundTrip | src/Storage/write_scheduler.cpp:1161-1165 | the four length bytes decode to the length, lowest byte first |
| ParquetMerge.LayoutRoundTrip | src/Storage/write_scheduler.cpp:1158-1167 | reading the layout of a written file gives back its data and its footer |
| ParquetMerge.Merger.ProcessBuffer | src/Storage/write_scheduler.cpp:1155-1231 | process_buffer, with its loop over row groups, does to the accumulators what Process says: shifted offsets, summed rows, appended data, or the error |
| ParquetMerge.ProcessMerges | src/Storage/write_scheduler.cpp:1155-1231 | after n files without failure the accumulators are those of the merge specification |
| ParquetMerge.FinishMerges | src/Storage/write_scheduler.cpp:1288-1313 | what is written at the end completes the specified merged file |
| ParquetMerge.RowsAreSummed | src/Storage/write_scheduler.cpp:1215 | num_rows of the merged footer is the sum over the files |
| ParquetMerge.DataPlacement | src/Storage/write_scheduler.cpp:1219-1228 | the data section is the concatenation: file i stands, whole, at the sum of the earlier data sizes |
| ParquetMerge.OffsetsStillPoint | src/Storage/write_scheduler.cpp:1191-1214 | for every offset o into the data of file i, the merged file holds at o + delta_i the byte file i holds at o |
| ParquetMerge.GroupPlacement | src/Storage/write_scheduler.cpp:1191-1217 | every row group of every file is in the merged footer, after the groups of the files before it, with every absolute offset moved by the delta of its file |
| ParquetMerge.MergedFooterPoints | src/Storage/write_scheduler.cpp:1197-1214 | whatever byte of its data the file offset of a row group or any of the six offsets of a column points at, the merged footer has that offset too and there it points at the same byte; absent offsets stay absent, all other fields stay as they are |
| ParquetMerge.MergedIsReadable | src/Storage/write_scheduler.cpp:1155-1313 | the merged file is itself a valid input to the merge, and its footer decodes to the merged metadata |
| ParquetMerge.MergedFooterHolds | src/Storage/write_scheduler.cpp:1180-1217 | read back, the footer has the schema, version and creator of the first file and the row groups and rows of all files, no more |
| ParquetPieces.FailsExactlyWhen | src/Storage/write_scheduler.cpp:1145-1231 | for any files: processing fails if and only if a footer cannot be read or the stream refuses the magic or the data of a file, and otherwise wrote the magic and the non-empty data sections in order |
| ParquetPieces.MergeSucceedsExactlyWhen | src/Storage/write_scheduler.cpp:1145-1313 | the whole merge succeeds if and only if the stream takes every piece: magic, data sections, footer, its length, magic; joined, the pieces are the merged file |
| ParquetMerge.MergeInStages | src/Storage/write_scheduler.cpp:1155-1313 | merging a merged file with more files gives, byte for byte, the merge of all of them at once |
| ParquetConsumer.ResultConsumer.Collect | src/Storage/write_scheduler.cpp:1237-1255 | one turn of the consumer loop does to pending, expected_part and the accumulators what Receive says |
| ParquetConsumer.DrainKeeps | src/Storage/write_scheduler.cpp:1241-1255 | parts are merged strictly in the order 1, 2, 3, ...; pending keeps only parts not yet due |
| ParquetConsumer.ReceiveKeeps | src/Storage/write_scheduler.cpp:1237-1263 | a new genuine result, in any arrival order, keeps that invariant |
| ParquetWorkers.MoveInv | src/Storage/write_scheduler.cpp:1102-1313 | with two workers or more, every atomic step of workers, queue and consumer keeps the system invariant |
| ParquetOneWorker.ReceiveReal | src/Storage/write_scheduler.cpp:1237-1255 | with one worker, each result is of a later part than all before it: the collector is on track, or for good behind a part that was lost |
| ParquetOneWorker.ReceiveMoved | src/Storage/write_scheduler.cpp:1237-1255 | a moved-from result, which has neither error nor buffer, repeats a part already received and advances nothing |
| ParquetOneWorker.MoveOne | src/Storage/write_scheduler.cpp:1102-1313 | every atomic step of one worker, its one-slot queue and the consumer keeps the invariant for that case |
| ParquetOutcome.ReturnsZeroOnlyIfMerged | src/Storage/write_scheduler.cpp:1102-1323 | for any number of workers, every interleaving that returns 0 left exactly the merge of the files of all parts in part order |
| ParquetOutcome.ReturnsZeroOnlyIfEachPartOnce | src/Storage/write_scheduler.cpp:1102-1134 | then every part was handed to exactly one worker and its file received exactly once |
| ParquetOutcome.GuardsHold | src/Storage/write_scheduler.cpp:1155-1171 | no reachable state reads outside a buffer or finishes without a schema |
| ParquetClosing.JoinsOnlyWhenClosed | src/Storage/write_scheduler.cpp:1102-1265 | for any number of workers the consumer stops popping only when the result queue is closed; it is closed only after a failure or when all workers have counted down; when all have ended normally it is closed |
| ParquetClosing.ThrowKeepsQueueOpen | src/Storage/write_scheduler.cpp:1109-1134 | a worker that ends by an exception is never counted down: without another failure the queue stays open and the call does not return |
| ParquetHang.SomeRunHangs | src/Storage/write_scheduler.cpp:1109-1134 | for every table and number of workers, a run in which the first encodings throw and from which no continuation returns |
| ParquetClosing.JoinReturns | src/Storage/write_scheduler.cpp:1267-1323 | the last step returns 0 if and only if no worker threw, nothing failed, all parts were merged, the trailer is accepted and the output can be closed and renamed, else 2 |
| ParquetClosing.ReturnsZeroOnlyIfFinished | src/Storage/write_scheduler.cpp:1102-1323 | in every run, 0 only if the merge was finished so, and a file stands at the final path exactly then |
| ParquetClosing.StopIsHeeded | src/Storage/write_scheduler.cpp:1112-1128 | once the stop flag is set no worker begins to take another part |
| ParquetClosing.ClosedIsHeeded | src/Storage/write_scheduler.cpp:126-141 | once the dispenser is closed no worker goes to fetch another part |
| ParquetClosing.FailureStopsWorkers | src/Storage/write_scheduler.cpp:1118-1128 | in every run the stop flag is set before a failed result is pushed |
| ParquetWitness.SomeRunReturnsZero | src/Storage/write_scheduler.cpp:1102-1323 | for every list of readable files and every number of workers, some run does return 0 |
| CInt.ToInt32Keeps | src/Common/rands.h:55-60 | a conversion to 32 bits keeps exactly the values that fit and wraps the others |
| CInt.TruncDivRounds | src/Common/rands.h:58 | division rounds toward zero: the remainder is smaller than the divisor and never of the other sign than the dividend |
| CInt.TruncDivUnique | src/Common/rands.h:58 | and only one quotient does |
| Lehmer.Undo | src/Common/rands.h:17-19 | a draw can be undone with the factor 1407677000, and only seed 0 leads to seed 0 |
| Lehmer.NeverZero | src/Common/rands.h:63-68 | a seed in [1, 2^31 - 2] stays there over any number of draws |
| Lehmer.RowRandomInt.NextRand | src/Common/rands.h:63-68 | one draw; the 64-bit product does not overflow |
| Lehmer.RowRandomInt.NextInt | src/Common/rands.h:51-61 | the new seed scaled to [lo, hi] when hi - lo < 2^31 - 1; lo less the seed, wrapped, when hi - lo is 2^31 - 1; lo for the empty range |
| Lehmer.ValueInRangeExactlyWhen | src/Common/rands.h:44-61 | the value lies in [lo, hi] if and only if hi - lo < 2^31 - 1 or the seed is 0 |
| Lehmer.ValueOnWrappedRange | src/Common/rands.h:44-61 | on the range that wraps to -2^31 the value is the lower bound less the seed |
| Lehmer.ValueMonotone | src/Common/rands.h:55-60 | the scaling keeps the order of seeds |
| Lehmer.TimesSquare | src/Common/rands.h:103-111 | an even number of multiplications is half as many by the reduced square |
| Lehmer.RowRandomInt.AdvanceSeed | src/Common/rands.h:98-112 | square and multiply leaves exactly the seed that count calls of NextRand leave, without overflow of a 64-bit product |
| Lehmer.RowRandomInt.RowFinished | src/Common/rands.h:71-79 | skips what is left of the budget of the row |
| Lehmer.RowRandomInt.AdvanceRows | src/Common/rands.h:82-93 | closes an open row, then skips whole rows |
| Lehmer.FinishedAt | src/Common/rands.h:71-79 | however many draws of its budget a row made, the next row starts at the same seed |
| Lehmer.OverdrawnRow | src/Common/rands.h:71-79 | a row that overdraws its budget leaves every later row out of place by the excess |
| Lehmer.AdvancedAt | src/Common/rands.h:82-93 | skipping n rows of a fresh stream stands at row n |
| Lehmer.AdvancedAdds | src/Common/rands.h:82-93 | skips add up, from the middle of a row too |
| Lehmer.RowsOfAnyDraws | src/Common/rands.h:71-93 | any n rows within budget leave the stream where AdvanceRows(n) does |
| Distribution.PickToken | src/Common/rands.h:418-434 | the loop over cumulative weights returns the token PickIndex names |
| Distribution.PickedExactlyWhen | src/Common/rands.h:418-434 | entry i is picked if and only if the sample lies in its own interval of cumulative weights |
| Distribution.PickedBySeed | src/Common/rands.h:418-434 | a seed picks the one entry whose cumulative interval, scaled to the modulus, holds it |
| Distribution.NextSequence | src/Common/rands.h:487-511 | the shuffle in place, cut to count; it makes one draw per place, within the budget |
| Distribution.ShuffleInPlace | src/Common/rands.h:503-507 | the loop over an array does what Shuffled says; every swap index is in bounds for every seed |
| Distribution.SwapDrawn | src/Common/rands.h:505-506 | one step: the tokens at the current and at the drawn place change places, the others stay |
| Distribution.FirstPlace | src/Common/rands.h:503-507 | after the step for a place and all later ones, the token there is the one that stood at the drawn index |
| Distribution.SequenceHolds | src/Common/rands.h:487-511 | which token of the table stands at each place of the sequence, from the draws alone: the one at the k-th drawn place after the k earlier swaps |
| Distribution.ShufflePermutes | src/Common/rands.h:503-507 | the shuffled tokens are a permutation of the table |
| Distribution.SequenceIsDistinct | src/Common/rands.h:487-511 | different tokens of the table stay different in the result |
| Scaling.TextInPool | src/Common/rands.h:712-722 | a text view lies inside the pool and has an allowed length, or is empty when the pool is too small |
| Scaling.NextTextAt | src/Common/rands.h:712-722 | a text value makes two draws, or none |
| Dates.ToJulian | src/Common/dates.cpp:41-60 | the loop terminates and computes Julian |
| Dates.JulianIsValid | src/Common/dates.cpp:41-60 | from 92001 on the result is a year and a valid day of it under the leap rule of the code, and they count back to the index |
| Dates.JulianRoundTrip | src/Common/dates.cpp:41-60 | every valid year and day is the image of its day number |
| Dates.JulianIncreases | src/Common/dates.cpp:41-60 | YYDDD keeps the order of days |
| Dates.InPastIsThreshold | src/Common/dates.cpp:8-11 | IsInPast holds exactly up to index 93264 |
| Dates.TableIsMonths | src/Common/dates.cpp:67-70 | the month table with its leap adjustment agrees with the lengths of the months |
| Dates.ToYmd | src/Common/dates.cpp:25-39 | a valid month and day that stand for the same day of the year |
| Dates.CivilAgreesExactlyWhen | src/Common/dates.cpp:3-39 | the printed date is the Gregorian date of the stored epoch day if and only if it is at most 28 February 2000; later it runs ahead |
| Partition.ValidatePart | src/Common/partition.cpp:10-20 | a part number is accepted exactly when it lies in [1, part_count] |
| Partition.MakePartitionRange | src/Common/partition.cpp:22-45 | a range is made exactly for a valid part; each part ends where the quotient times its number says, the last at the total |
| Partition.BuildPartitionPlans | src/Common/partition.cpp:59-68 | one plan per part, in order |
| Partition.RangesTile | src/Common/partition.cpp:22-45 | each part starts where the one before it ended, the first at 0, the last ends at the total |
| Partition.EveryRowHasAPart | src/Common/partition.cpp:22-45 | every row is in some part |
| Partition.OnlyOnePart | src/Common/partition.cpp:22-45 | and in no other |
| Partition.PartitionsMakeTheTable | doc/tables.md:127-131 | generating parts 1..N and putting them together yields the un-partitioned table, for every table whose adjacent ranges join |
| Keys.OrderKeyRoundTrip | src/Tables/lineitem.cpp:215-224 | order keys use the first eight of every 32 numbers, and the index can be computed back |
| Keys.OrderKeysAscend | src/Tables/lineitem.cpp:215-224 | order keys ascend strictly with the index |
| Keys.OrderKeyFitsExactlyWhen | src/Tables/lineitem.cpp:104 | the 32-bit column holds the key unchanged exactly below index 2^29 |
| Keys.PartPriceClimbs | src/Tables/lineitem.cpp:226-232 | part 0 costs 900.00; each next part 1.00 more, 1.01 after every tenth, less 1000.00 after every thousandth and 200.01 after every 200010th |
| Keys.PartPriceIsDetermined | src/Tables/lineitem.cpp:226-232 | and this fixes the price of every part |
| Keys.PartPrice | src/Tables/lineitem.cpp:226-232 | a part costs between 900.00 and 2099.00 |
| Keys.SelectPartSupplier | src/Tables/partsupp.cpp:97-110 | a supplier key in [1, S] |
| Keys.SupplierOfPart | src/Tables/partsupp.cpp:97-110 | the formula with C++ division and remainder, for any 32-bit key, is that of the part for keys from 1 |
| Keys.SuppliersGoRound | src/Tables/partsupp.cpp:97-110 | the first supplier follows the part key, each further one is S / 4 + (key - 1) / S ahead, going round |
| Keys.EverySupplierOnce | src/Tables/partsupp.cpp:97-110 | of each block of S consecutive parts, every supplier is the n-th of exactly one |
| Keys.SuppliersCoincideExactlyWhen | src/Tables/partsupp.cpp:97-110 | two suppliers of a part coincide if and only if S divides the distance between them |
| Keys.DistinctExactlyWhen | src/Tables/partsupp.cpp:93-110 | the four suppliers differ if and only if S divides none of one, two and three steps |
| Keys.EnoughSuppliers | src/Tables/partsupp.cpp:93-110 | with S >= 229 every part key in [1, 20 S] has four different suppliers |
| Keys.TooFewSuppliers | src/Tables/partsupp.cpp:93-110 | with S = 228 part 4333 has one twice |
| Keys.SkipDeadCustomers | src/Tables/orders.cpp:69-79 | the mortality loop terminates, for every start, after at most two steps |
| Keys.LivingCustomerIsValid | src/Tables/orders.cpp:69-79 | from [1, max] it ends in [1, max] on a key that is not a multiple of three: the drawn one, else the next, of the last the one before |
| Batches.ConcatChunks | src/Storage/write_scheduler.cpp:1691-1699 | cutting rows into batches of any positive size loses, repeats and reorders nothing |
| Lineitem.LineitemRowIterator.Reset | src/Tables/lineitem.cpp:5-66 | after Reset exactly the lines of the orders in [start, end) are still to come |
| Lineitem.LineitemRowIterator.Next | src/Tables/lineitem.cpp:68-162 | Next returns the first line still to come, and false exactly when there is none; row ids ascend, and the id of a row names its order and line |
| Lineitem.LineitemRowIterator.DrawLine | src/Tables/lineitem.cpp:75-126 | the draws of a line yield its row and leave every stream where the next line needs it, although the return flag is drawn only for lines received in the past |
| Lineitem.LineitemRowIterator.FinishLine | src/Tables/lineitem.cpp:128-159 | after the last line of an order all streams stand at the next order |
| Lineitem.FinishedStreams | src/Tables/lineitem.cpp:19-36 | the budgets cover every order of up to seven lines |
| Lineitem.LineitemGenerator.Reset | src/Tables/lineitem.cpp:257-267 | a partition splits the orders, not the lines |
| Lineitem.LineitemGenerator.NextBatch | src/Tables/lineitem.cpp:269-329 | a batch is the next maxRows rows still to come, or fewer when they run out; its id names the order and line of its first row, and the ids of later batches lie beyond its rows |
| Lineitem.LineitemGenerator.Generate | src/Storage/write_scheduler.cpp:1691-1699 | the loop of the writer yields the remaining rows cut every maxRows rows |
| Lineitem.LinesSplit | src/Tables/lineitem.cpp:5-162 | the lines of two adjacent order ranges are the lines of the joined range |
| Lineitem.PartitionsMakeLineitem | doc/tables.md:127-131 | the lines of all partitions, one after the other, are the lines of the whole table |
| Lineitem.LineInRange | src/Tables/lineitem.h:58-80 | quantity, discount and tax keep their ranges; ship, commit and receipt dates lie in [92001, 92001 + 2556], receipt after ship |
| LineitemColumns.LinePlace | src/Tables/lineitem.cpp:68-162 | random access: which place line l of order o has in the output, and every one of its columns in closed form, from the seed of its own draw of each column stream |
| LineitemColumns.EveryLineHasAPlace | src/Tables/lineitem.cpp:68-162 | and there are no other rows |
| LineitemColumns.FlagsAndStatus | src/Tables/lineitem.cpp:96-97 | in every row: flag R or A for a line received in the past and N for any other, status F for a line shipped in the past and O for any other; a line with a return flag has status F |
| LineitemColumns.FlagsAreDraws | src/Tables/lineitem.cpp:96 | the return flag stream is drawn once for each earlier line of the order that carries a flag |
| Orders.OrderRowIterator.Reset | src/Tables/orders.cpp:6-56 | after Reset exactly the orders of [start, end) are still to come |
| Orders.OrderRowIterator.Next | src/Tables/orders.cpp:58-140 | Next returns the first order still to come, and false exactly when there is none; row ids count up by one and name the order |
| Orders.OrderRowIterator.ReplayLines | src/Tables/orders.cpp:81-102 | the loop over the lines of the order sums their prices and counts those shipped in the past |
| Orders.OrderRowIterator.DrawOrder | src/Tables/orders.cpp:65-125 | the draws of an order yield its row |
| Orders.FinishedStreams | src/Tables/orders.cpp:125-136 | the budgets cover every order, so the next one starts in place |
| Orders.OrderGenerator.NextBatch | src/Tables/orders.cpp:234-280 | a batch is the next maxRows orders still to come, or fewer when they run out; row k of it has its first id plus k, and the next batch goes on from there |
| Orders.OrderGenerator.Generate | src/Storage/write_scheduler.cpp:1691-1699 | the loop of the writer yields the remaining rows cut every maxRows rows |
| Orders.PartitionsMakeOrders | doc/tables.md:127-131 | the orders of all partitions, one after the other, are the orders of the whole table |
| Orders.TotalPriceBound | src/Tables/orders.cpp:81-96 | n lines cost at most 113346.00 each |
| Orders.OrderFits | src/Tables/orders.cpp:114-119 | the order total always fits its 32-bit column; the customer key lies in [1, max] and is not a multiple of three |
| OrderColumns.RowHolds | src/Tables/orders.cpp:58-125 | row k of a range is order start + k, and every column that does not depend on its lines in closed form from the seed of its draw: key, living customer, date, priority, clerk, comment |
| PartSupp.PartSuppRowIterator.Reset | src/Tables/partsupp.cpp:5-27 | what is still to come after Reset, with the supplier number it leaves as it was |
| PartSupp.PartSuppRowIterator.Next | src/Tables/partsupp.cpp:29-81 | Next returns the first row still to come, and false exactly when there is none; row ids count up by one and name part and supplier number |
| PartSupp.ResetIsFreshExactlyWhen | src/Tables/partsupp.cpp:5-27 | Reset yields the rows of the range if and only if the iterator stood between two parts or the range is empty |
| PartSupp.PartSuppGenerator.Reset | src/Tables/partsupp.cpp:123-134 | a partition splits the parts |
| PartSupp.PartSuppGenerator.NextBatch | src/Tables/partsupp.cpp:136-174 | a batch is the next maxRows rows still to come, or fewer when they run out |
| PartSupp.PartSuppGenerator.Generate | src/Storage/write_scheduler.cpp:1691-1699 | the loop of the writer yields the remaining rows cut every maxRows rows |
| PartSupp.RowPlace | src/Tables/partsupp.cpp:29-81 | row 4 p + n of the table is supplier n of part p |
| PartSuppColumns.RowPlaceHolds | src/Tables/partsupp.cpp:29-81 | row 4 p + n of a range of parts in closed form: part, n-th supplier, quantity, cost and comment from the seeds of draw n + 1 of the part |
| PartSuppColumns.EverySupplierOffersOnce | src/Tables/partsupp.cpp:29-110 | in the emitted rows, of each block of S parts every supplier is the n-th of exactly one |
| PartSupp.PartitionsMakePartSupp | doc/tables.md:127-131 | the rows of all partitions, one after the other, are the rows of the whole table |
| Supplier.SupplierRowIterator.Reset | src/Tables/supplier.cpp:7-39 | after Reset exactly the suppliers of [start, end) are still to come |
| Supplier.SupplierRowIterator.Next | src/Tables/supplier.cpp:41-100 | Next returns the first supplier still to come, and false exactly when there is none; row ids count up by one and name the supplier |
| Supplier.SupplierRowIterator.ApplyBBBComment | src/Tables/supplier.cpp:119-149 | the three extra draws and the rewritten comment; a comment too short draws nothing |
| Supplier.RewrittenPlaces | src/Tables/supplier.cpp:138-146 | both words stand where they were put, every other character is the old one, all indices in bounds |
| Supplier.FinishedStreams | src/Tables/supplier.cpp:88-96 | however many draws a row made, the next row starts in place |
| Supplier.AddressToString | src/Common/rands.h:284-304 | each character comes from six bits of its own draw of the copied stream |
| Supplier.AddressStaysInBudget | src/Common/rands.h:318-335 | the draws of an address on its copy are draws of its own row |
| Supplier.SupplierInRange | src/Tables/supplier.cpp:50-86 | the columns keep their ranges; a rewritten comment keeps its length |
| SupplierColumns.RowHolds | src/Tables/supplier.cpp:41-149 | row k of a range is supplier start + k, with key, nation, phone, balance and comment in closed form: the view into the pool, or with the words of a rewritten comment at their drawn places |
| SupplierColumns.AddressHolds | src/Common/rands.h:284-304 | the characters of an address, five to a draw and read as base-64 digits, give back the negated seed of their draw |
| Supplier.SupplierGenerator.NextBatch | src/Tables/supplier.cpp:171-213 | a batch is the next maxRows suppliers still to come, or fewer when they run out |
| Supplier.SupplierGenerator.Generate | src/Storage/write_scheduler.cpp:1691-1699 | the loop of the writer yields the remaining rows cut every maxRows rows |
| Supplier.PartitionsMakeSupplier | doc/tables.md:127-131 | the suppliers of all partitions, one after the other, are the suppliers of the whole table |
| CrossTable.ReplayIsLineitem | src/Tables/orders.cpp:81-102 | date, line count, quantity, discount, tax, part key and ship date that the orders iterator replays are those lineitem draws, although only one of them clamps the largest part key |
| CrossTable.RowPriceIsCut | src/Tables/orders.cpp:87-96 | the price of a line is the exact product, less two cents and a tenth at most |
| CrossTable.OrderAgreesWithItsLines | src/Tables/orders.cpp:65-119 | the order total is the sum of the line prices computed from the emitted lineitem rows, and the status is F, O or P exactly as all, none or some of them are shipped |
| CrossTable.LinesBelongToOrder | src/Tables/lineitem.cpp:75-126 | the lines carry the key of the order, are numbered from 1, and their dates follow the order date |
| CrossTable.LinesAreOfferedExactlyWhen | src/Tables/lineitem.cpp:82-84 | the part and supplier of every line are a row of partsupp if and only if there is at least one part |
| EndToEnd.PlanHoldsTheRows | src/Storage/write_scheduler.cpp:1681-1699 | the batches of all parts, joined, are the partitioned rows |
| EndToEnd.MultiplexedRunWritesTheTable | src/Storage/write_scheduler.cpp:1371-1613 | any multiplexed run that returns 0 wrote the rows of one un-partitioned run |
| EndToEnd.MultiplexedRunWritesTheTableExactlyWhen | src/Storage/write_scheduler.cpp:1371-1613 | that holds for every table, partitioning, sink and run if and only if the queue capacity is at least 2 |
| EndToEnd.SequentialRunWritesTheTable | src/Storage/write_scheduler.cpp:1668-1726 | the sequential loop, run on the generators of the partitions, returns 0 exactly when nothing is refused or thrown, and then wrote the whole table |
| EndToEnd.TablesAreAdditive | doc/tables.md:127-131 | lineitem, orders, partsupp and supplier all meet the condition of these two |
| EndToEnd.LineitemSurvivesThePipeline | src/Storage/write_scheduler.cpp:1371-1613 | for lineitem: every line of every order, once and in order, at any number of partitions, batch size, capacity from 2 and interleaving |
| EndToEnd.OrdersSurviveThePipeline | src/Storage/write_scheduler.cpp:1371-1613 | the same for orders |
| EndToEnd.PartSuppSurvivesThePipeline | src/Storage/write_scheduler.cpp:1371-1613 | the same for partsupp |
| EndToEnd.SupplierSurvivesThePipeline | src/Storage/write_scheduler.cpp:1371-1613 | the same for supplier |

## Left out

- Wake-ups and fairness: notifications are sent without the mutex, and a wait is a retry here, so what is shown is that a run can always go on to return, not that a scheduler lets it.
- Weak memory orders and wrap-around of `size_t` positions.
- Lehmer.RowRandomInt.NextInt: takes the quotient seed * range / (2^31 - 1) exactly where the code computes it in double.
- ParquetWorkers.IsStale: a result that was moved from keeps its part number and has neither buffer nor error; which earlier part of its slot it names is left open.
- ParquetOutcome.ReturnsZeroOnlyIfMerged: asks for at least one part; without parts the source writes a default footer. The files of the parts are given, see above.
- ParquetWorkers.ShortFooters: the serializer reports a footer length of 32 bits, so footers are assumed shorter than 4 GiB.
- ParquetConsumer.MinisWellFormed: the in-memory files of the parts are assumed to have the layout `process_buffer` reads without checking.
- Parquet fields the merge copies unchanged (column chunk file offsets, row group ordinals, page locations inside an offset index) are one opaque value; opening, closing and renaming the output is one accepted-or-refused step, and an existing final file is outside the model.
- PartitionFiles.ReturnsZeroExactlyWhen: the generation of one part is one step with an arbitrary return code; what that code means is the subject of `OwnFile`.
- Lineitem.LineitemRowIterator: its fourteen streams are one record of values, as `RandomBoundedInt` and the others hold a `RowRandomInt` by value; the same in the other iterators. Aliasing between stream objects does not arise in the source.
- Lineitem.LineitemRowIterator.Next: always fills a row; no caller passes a null pointer. The same holds for the other iterators.
- Scaling.Scale.Supported: row counts that fit 32 bits; the 64-bit streams used from scale factor 30000 skip rows with a different recurrence than they draw with, so partition independence is not claimed for them.
- Row counts at a scale factor (`ScaleConfig::RowCount` and the products inside the iterators) are given numbers; the doubles behind them are not modelled. Decimal columns are in cents and percent.
- Text formatting of names, clerks and phone numbers, and the sentences of the text pool: the pool is any string, a lineitem, orders or partsupp comment is a view into it.
- Region, nation, part and customer iterators: the shape of the supplier iterator, so only easy members.
- Arrow, ORC, Lance and Vortex writers, file systems, command line, progress display and the order in which tables are scheduled.
