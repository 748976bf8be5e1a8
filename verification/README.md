# Eggroll data plane in Dafny

Eggroll moves key/value tables between partitions (shuffle) and between parties (roll
site). This project models the Python code that does so, from bytes to tables, and
proves what the whole path means: a shuffle is a group-by-reduce, a pull holds exactly
what was pushed, a pushed object is pulled back unchanged, a sharded table is one map.

`dafny verify dfyconfig.toml` checks everything.

| layer | files |
|---|---|
| bytes and sequences | `Bytes`, `Seqs`, `Folding` |
| pair codec: buffer objects, inlined fast path, batches | `Format`, `BinBatch` |
| brokers: classes, the broker with its reads split into separate steps, batches through it | `Broker`, `BrokerRun`, `HopRun` |
| shuffle: one step machine for all threads, its invariant, progress and meaning | `Shuffle`, `ShuffleFlow`, `ShuffleRun`, `ShuffleCapacity`, `ShuffleLiveness`, `ShufflePacking`, `GroupBy`, `ShuffleMeaning`, `JobShuffle` |
| tables: sorted merges, sharding, store operations, reduce, job tasks | `SortedMerge`, `Tables`, `RollPair`, `Reduce`, `JobTasks` |
| roll site: stream cutting, packet numbering, retries, completion, totals, objects | `RollSitePush`, `PushRun`, `RollSitePull`, `PullRecord`, `PullCompletion`, `PullStatus`, `ObjectTransfer` |
| lifecycle counters | `Gc`, `LmdbCache` |

Code that mutates objects is modelled by classes and loops, each proved equal to a
specification function; concurrent code by a state machine whose steps are the
threads' individual actions, with theorems over every sequence of enabled steps.

## What the model assumes

- A partitioner is any function into [0, n). A functor is any function on bytes.
- A partition is a finite map that is iterated in strictly increasing key order.
- The shuffle theorems take map output the codec carries (non-empty keys, lengths below
  2^31) and a send buffer that holds the 16-byte header. `BinBatch.RoundTrip` says
  exactly what else is lost: key size 0 ends a batch for the reader, and a length of
  2^31 or more ends the generator.
- Stored tables that are read back through the codec (get_all, take) have such keys and
  values too.
- The shuffle theorems without a reduce function take keys that LMDB accepts: `put` raises
  for others and fails the job (`Shuffle.DoStore`). With one, refused keys are allowed.
- The attempts of a push do not overlap, and an attempt that succeeds pulled all its
  packets. The theorems about what arrives assume that no late retry happened, a retry of
  a stream after the first that is pulled before that stream's first attempt. This is
  exactly what is needed: `PullCompletion.CompletionIsTrustworthy` shows that any finished
  push with a late retry can be reported complete with batches missing.

## Where the code differs from what one would expect

- A pair that spills is neither counted nor checked against `limit`, so `limit` is a
  lower bound on what is emitted (`BinBatch.LimitExceeded`). It is met exactly iff there are
  no more pairs or those within it fit the send buffer (`BinBatch.LimitIsExact`); `take` is
  exact all the same.
- The driver of a reduce drops partition results that are empty bytes
  (`Reduce.ReduceIsFold`, `Reduce.DroppedEmptyResult`).
- A retry that is pulled before its stream's first attempt reuses the numbers of an
  earlier stream. On the first stream only stream numbers suffer (`PushRun.StaleRetry`);
  on a later one batches are lost silently (`PullCompletion.LateRetryLoses`).
- An exception between entering the write broker and entering its BatchBroker leaves the
  broker one signal short, and the routing thread never ends (`Broker.ShuffleWriteBlock`,
  `BrokerRun.EarlyExitHangs`).
- `merge` drops a pair for which `txn.put` refuses the key and only logs it; `put` raises.
  (`merge` first reads the key outside its try block; an error there, as for an empty key,
  would not be dropped. Keys that reach it are not empty.)
- Destroying a counted handle by hand, or registering it twice, keeps its store out of
  the destroy queue for good (`Gc.StuckNeverQueued`, `Gc.LeaksExactlyWhen`).
- An object of 2^32 whole chunks or more does not survive (`ObjectTransfer.ObjectRoundTrip`).

## Model

| member | source | states |
|---|---|---|
| `ShuffleMeaning.ShuffleIsGroupByReduce` | python/eggroll/computing/tasks/impl/_map_partitions_with_index.py:142-213 | for every interleaving of the N_in map tasks, routing, sending, serving and storing threads, and every associative and commutative reduce function, a finished shuffle holds each key only in its partitioner's partition, under the reduction of all values the map tasks emitted for it: the sequential group-by-reduce, without the keys LMDB refuses, which merge drops |
| `ShuffleMeaning.MergedValues` | python/eggroll/computing/tasks/transfer/transfer_pair.py:299-343 | the values merged under a key in a partition are, as a bag, those all map tasks emitted for it if the key belongs there and LMDB takes it, and none otherwise, folded onto what the partition held before |
| `ShuffleMeaning.ShuffleIsRepartition` | python/eggroll/backport/_wrap_rollpair.py:347-370 | a shuffle without reduce function over distinct keys only moves pairs: a key is in partition j iff it was emitted and the partitioner says j, with its own value |
| `ShuffleFlow.LocalStepKeeps` | python/eggroll/computing/tasks/transfer/transfer_pair.py:155-218 | every step inside one sender keeps its invariant: the pairs beyond and before the routing thread are, in order, the map output routed to each partition; finish signals travel behind the data |
| `ShuffleRun.StepKeepsInv` | python/eggroll/computing/tasks/transfer/transfer_service.py:243-279 | every step of the whole job keeps the invariant that links streams, transfer brokers and stored tables |
| `ShuffleRun.SignalAccounting` | python/eggroll/computing/tasks/transfer/transfer_service.py:243-279 | in every reachable state no put or signal was refused, each output broker's active-writer count is the number of unfinished streams into it plus the declared writers that do not exist, and a partition is stored only when every declared writer exists and has signalled, with the count at 0 |
| `JobShuffle.JobFinishes` | python/eggroll/computing/tasks/submit_utils.py:74-124 | a whole job: the store tasks expect first_input.num_partitions signals, and the decomposition has exactly that many scattering tasks and one storing task for each partition of the first output; so under every schedule nothing is refused, the run ends, and at the end every output partition is stored and every output broker's count is 0 |
| `ShuffleRun.StoredStream` | python/eggroll/computing/tasks/impl/_map_partitions_with_index.py:165-211 | what a finished partition took from map task i is exactly the pairs of that task's output routed to it, in order |
| `ShufflePacking.SentStreamIsBatches` | python/eggroll/computing/tasks/transfer/transfer_pair.py:195-215 | under every schedule a stream that has been sent consists of exactly the batches the generator makes of the pairs routed to it, for every send buffer |
| `ShuffleLiveness.NoDeadlock` | python/eggroll/computing/tasks/transfer/transfer_pair.py:155-218 | in every reachable state with an unfinished partition some step is enabled, for every broker and batch size, when as many writers are declared as there are map tasks |
| `ShuffleCapacity.CapacityIsKept` | python/eggroll/computing/tasks/transfer/transfer_pair.py:169-190 | in every reachable state of the shuffle no local broker and no output broker of a positive capacity holds more than that capacity: the back-pressure the progress results speak of is real |
| `ShuffleLiveness.RunBound` | python/eggroll/computing/tasks/transfer/transfer_pair.py:155-218 | every step lowers a weight, so runs are bounded by the weight of the first state |
| `ShuffleLiveness.EveryScheduleFinishes` | python/eggroll/computing/tasks/impl/_map_partitions_with_index.py:165-213 | under every schedule the job ends, and a run that cannot be extended has every partition stored iff no more writers were declared than there are map tasks |
| `Shuffle.DoStore` | python/eggroll/computing/tasks/transfer/transfer_pair.py:299-343 | unpacks the broker's batches and merges every pair in order; it fails iff a header is malformed or a put meets a key LMDB refuses, and then the table has what was merged before, which closing the adapter commits |
| `GroupBy.MergeAllValue` | python/eggroll/computing/tasks/store/_lmdb.py:283-297 | after merging a sequence of pairs a key holds the fold of its values, onto the old value if there was one; a key LMDB refuses is left as it was |
| `Folding.FoldLast` | python/eggroll/computing/tasks/impl/_reduce.py:34-43 | a fold adds the values in order, with what was accumulated as the left operand |
| `Folding.FoldPermutation` | python/eggroll/computing/tasks/impl/_reduce.py:60-63 | for an associative and commutative operation a fold depends only on the bag of values |
| `Format.WritePairEffect` | python/eggroll/computing/tasks/store/_format.py:387-399 | a write succeeds iff the pair fits and both lengths pack into 31 bits; then the committed prefix grows by the pair's encoding and the rest is untouched; an overflow leaves prefix and offset as they were; a length that does not pack leaves the offset where its field would have been |
| `Format.WriteHeadEffect` | python/eggroll/computing/tasks/store/_format.py:401-406 | the header is written iff it fits, and is the encoding of the empty batch |
| `Format.ArrayByteBuffer.WriteBytes` | python/eggroll/computing/tasks/store/_format.py:166-171 | in-place write at the current or an explicit position, which the offset then follows; IndexError leaves bytes and offset unchanged |
| `Format.ArrayByteBuffer.WriteInt32` | python/eggroll/computing/tasks/store/_format.py:159-164 | the same for a signed 32-bit number in big-endian two's complement, with the overflow check before the range check |
| `Format.ArrayByteBuffer.ReadBytes` | python/eggroll/computing/tasks/store/_format.py:152-157 | the bytes at the current or an explicit position, which the offset then follows; failure leaves the offset unchanged |
| `Format.ArrayByteBuffer.ReadInt32` | python/eggroll/computing/tasks/store/_format.py:138-144 | the same for four bytes read as a signed number |
| `Bytes.PackRoundTrip` | python/eggroll/computing/tasks/store/_format.py:138-164 | every signed 32-bit number survives packing and unpacking |
| `Bytes.PackedBytes` | python/eggroll/computing/tasks/store/_format.py:159-164 | a signed 32-bit number packs into the four base-256 digits of its two's complement, the most significant first |
| `Bytes.BigEndianOrder` | python/eggroll/federation/_rollsite_impl_grpc.py:189-199 | a smaller number has the smaller encoding in byte order, at every width |
| `Format.WritePairBuffered` | python/eggroll/computing/tasks/store/_format.py:387-399 | the buffer-object writer has the bytes, offset and outcome of the specification, rollback included |
| `Format.PairBinWriter.Write` | python/eggroll/computing/tasks/store/_format.py:508-554 | the inlined writer has the bytes, offset and outcome of the same specification, so it refines the buffer-object writer |
| `Format.WriteHeadBuffered` | python/eggroll/computing/tasks/store/_format.py:400-405 | the buffer-object header, at the current position, has the bytes, offset and outcome of the specification |
| `Format.PairBinWriter.Open` | python/eggroll/computing/tasks/store/_format.py:408-454 | opening a writer writes the header by the same specification as the buffer path |
| `Format.ReadAllBuffered` | python/eggroll/computing/tasks/store/_format.py:316-333 | the buffer-object reader yields the pairs and final offset of the specification on every buffer and start offset |
| `Format.ReadAllInlined` | python/eggroll/computing/tasks/store/_format.py:334-384 | the inlined reader yields the pairs and final offset of the same specification on every input and start offset |
| `Format.ParseEncoded` | python/eggroll/computing/tasks/store/_format.py:334-384 | reading encoded pairs from any position, followed by any zero padding, gives the pairs up to the first empty key and stops right behind them: padding is invisible |
| `Format.ParseTruncated` | python/eggroll/computing/tasks/store/_format.py:334-384 | of encoded pairs that were cut at any byte exactly the pairs wholly in front of the cut are read, and the offset is left behind the last of them |
| `Format.HeaderVerdicts` | python/eggroll/computing/tasks/store/_format.py:174-244 | which data opens and which error it raises: magic number, then version, then a positive body size that is not the length of the rest |
| `Format.DecodeEncoded` | python/eggroll/computing/tasks/store/_format.py:316-384 | a batch with padding opens and decodes to its pairs up to the first empty key |
| `BinBatch.RoundTrip` | python/eggroll/computing/tasks/transfer/transfer_pair.py:222-280 | decoding the emitted batches in order gives the input back iff every key is non-empty, every length is below 2^31 and the input iterator does not raise (or is empty), for every buffer size |
| `BinBatch.RoundTripLosesSuffix` | python/eggroll/computing/tasks/transfer/transfer_pair.py:248-280 | in every case a prefix of the input is packed and of each batch the pairs in front of its first empty key come back; without empty keys that is the packed prefix, and it is shorter than the input when the iterator raises |
| `BinBatch.SpillFits` | python/eggroll/computing/tasks/transfer/transfer_pair.py:255-258 | the write retried after a spill always fits the new buffer |
| `BinBatch.BatchSizes` | python/eggroll/computing/tasks/transfer/transfer_pair.py:232-260 | every batch fits the buffer it was written to: the first the send buffer, each later one the buffer its opening pair required |
| `BinBatch.BatchesFit` | python/eggroll/computing/tasks/transfer/transfer_pair.py:232-260 | a first batch is at most the send buffer; a later one is not empty and at most the send buffer or its opening pair's key, value and 1024 bytes, whichever is larger |
| `BinBatch.BatchesAreFull` | python/eggroll/computing/tasks/transfer/transfer_pair.py:248-260 | a batch is closed only when the next pair fits neither the send buffer nor, after a spill, the buffer its opening pair required: no buffer is smaller than it should be |
| `BinBatch.RaisingDropsLast` | python/eggroll/computing/tasks/transfer/transfer_pair.py:248-263 | an iterator that raises costs exactly the batch that was being filled |
| `BinBatch.UnpackableEnds` | python/eggroll/computing/tasks/transfer/transfer_pair.py:248-263 | a pair too long to pack ends the stream there: the batches of the pairs in front of it are emitted, the one in progress only if it had no room for that pair up to the length that does not pack |
| `BinBatch.LimitIsExact` | python/eggroll/computing/tasks/transfer/transfer_pair.py:248-260 | max(limit, 1) pairs are emitted, or all if there are fewer, iff there are no more or the first ones up to the limit fit the send buffer together |
| `BinBatch.LimitExceeded` | python/eggroll/computing/tasks/transfer/transfer_pair.py:255-258 | a limit that is not met: with a buffer that holds the header only, limit 1 lets two pairs through |
| `BinBatch.LimitBounds` | python/eggroll/computing/tasks/transfer/transfer_pair.py:248-260 | with a limit, the number of emitted pairs is at least the limit (or all) and at most the limit plus the number of spills |
| `BinBatch.AtLeastOneBatch` | python/eggroll/computing/tasks/transfer/transfer_pair.py:246-260 | a stream that carries no pair still has one batch |
| `BinBatch.PairToBinBatch` | python/eggroll/computing/tasks/transfer/transfer_pair.py:222-263 | the generator with its replaced buffers, spills, limit and failures emits exactly the specified batches; it fails at once iff the send buffer cannot hold the header |
| `BinBatch.Spill` | python/eggroll/computing/tasks/transfer/transfer_pair.py:255-258 | commit returns the finished batch and the retried write leaves the pair alone in a new buffer, or is a length error |
| `BinBatch.BinBatchToPair` | python/eggroll/computing/tasks/transfer/transfer_pair.py:266-280 | yields the pairs of all batches in order; it fails iff a header is malformed, after the pairs of the batches before it; a truncated batch is skipped |
| `BrokerRun.ReaderGetsEverything` | python/eggroll/core/datastructure/broker.py:92-134 | over every interleaving, with the two reads of is_closable as separate steps: no put or signal of an unsignalled writer is refused, the counter is the number of signals yet to come, and a reader that stops has taken from each writer exactly its items in order; a reader whose broker misses a signal never stops |
| `BrokerRun.StopsUnlessMissing` | python/eggroll/core/datastructure/broker.py:147-159 | from every reachable state the reader can still be brought to stop iff no signal is missing, for every queue capacity |
| `BrokerRun.EarlyExitHangs` | python/eggroll/computing/tasks/impl/_map_partitions_with_index.py:174-195 | the routing thread of a map task whose write block was left before its BatchBroker was entered never stops and never gets an item |
| `BrokerRun.ClosableIsFinal` | python/eggroll/core/datastructure/broker.py:112-113 | a broker that is closable at any point of any run has given out each writer's items, complete and in order; in every continuation it stays closable and nothing more is taken |
| `BrokerRun.NeverStuck` | python/eggroll/core/datastructure/broker.py:147-166 | before the reader stops some step is enabled, a writer's while writers are unfinished and there is room |
| `BrokerRun.CapacityIsKept` | python/eggroll/core/datastructure/broker.py:83-128 | over every interleaving a broker of positive capacity never holds more items than that |
| `BrokerRun.StepKeepsInv` | python/eggroll/core/datastructure/broker.py:92-134 | every step keeps the log, counter and reader invariant |
| `Broker.FifoBroker.SignalWriteFinish` | python/eggroll/core/datastructure/broker.py:96-103 | decrements the active writers, or refuses when all have finished |
| `Broker.FifoBroker.Put` | python/eggroll/core/datastructure/broker.py:124-128 | refused iff writing is finished; blocked iff it is not and a positive capacity is reached; else appended |
| `Broker.FifoBroker.Get` | python/eggroll/core/datastructure/broker.py:130-134 | takes the head; closed iff finished and empty |
| `Broker.FifoBroker.DrainTo` | python/eggroll/core/datastructure/broker.py:136-145 | moves a prefix of the queue of at most the given length |
| `Broker.BatchBroker.Put` | python/eggroll/computing/tasks/transfer/transfer_pair.py:88-91 | flushes a full batch before appending; fails iff that flush is refused or blocked, and then changes nothing |
| `Broker.BatchBroker.Get` | python/eggroll/computing/tasks/transfer/transfer_pair.py:100-105 | pops from the local batch, refilled from the broker; closed iff there is no batch, nothing is queued and the writers have finished |
| `HopRun.BatchBrokerIsTransparent` | python/eggroll/computing/tasks/transfer/transfer_pair.py:82-119 | for every batch size, queue capacity and interleaving of writer and reader: the queue stays within its capacity, every batch before the last has exactly max(batch_size, 1) items, the reader has a prefix of what was put, and when it stops all of it, cut into full batches and a non-empty rest |
| `HopRun.Progress` | python/eggroll/computing/tasks/transfer/transfer_pair.py:110-119 | until the reader stops some step is enabled: the capacity blocks neither side for good |
| `Broker.ShuffleWriteBlock` | python/eggroll/computing/tasks/impl/_map_partitions_with_index.py:174-211 | after the write block the writer count is 0 iff the BatchBroker context was entered, with everything produced flushed in batches, also when the map function raised; an exception before that point leaves the count at 1 and the queue empty |
| `JobTasks.DecomposeTasks` | python/eggroll/computing/tasks/submit_utils.py:74-124 | fails iff there is no input or a partition number of the first input or the first output is missing in a store or not on one processor; otherwise task i has the i-th partition of every input iff i < N_in and of every output iff i < N_out, at their common endpoint, no task has neither, exactly N_in tasks write and exactly N_out store |
| `JobTasks.FillPartitions` | python/eggroll/computing/tasks/submit_utils.py:86-97 | collects the i-th partitions of the stores in order; fails iff one is missing or their endpoints (and the given one) differ |
| `RollSitePush.ChunkBatchStream` | python/eggroll/federation/_rollsite_impl_grpc.py:107-120 | one stream is the next batches_per_stream batches, or the rest when the iterator ends, with the flag set exactly then |
| `RollSitePush.GenerateBatchStreams` | python/eggroll/federation/_rollsite_impl_grpc.py:96-125 | the streams cut the batch sequence: concatenation, all but the last full, none empty; the finish flag after draining a stream is true iff it was the last |
| `RollSitePush.BatchStreamHelper.GeneratePacket` | python/eggroll/federation/_rollsite_impl_grpc.py:50-94 | pulling any number of packets of an attempt leaves the helper and the packets as the packet-by-packet specification says; no pull, no effect; an empty batch before the last is skipped, and a stream without batches is one packet without body |
| `RollSitePush.SentIsFiltered` | python/eggroll/federation/_rollsite_impl_grpc.py:82-94 | the bodies an attempt sends are the non-empty batches before the last, and the last in any case; for a stream without batches one empty body |
| `PushRun.PullsArePulled` | python/eggroll/federation/_rollsite_impl_grpc.py:50-94 | the pulls of an attempt at a stream without empty batches give the helper state and the packets of generate_packet's specification |
| `PushRun.NumberingIsRetrySafe` | python/eggroll/federation/_rollsite_impl_grpc.py:226-268 | over every sequence of attempts, all packets ever generated carry the right consecutive batch and stream numbers iff no retry was pulled before its stream's first attempt; then every packet marked finished carries the true totals, also those a retry of the last stream marks early |
| `PushRun.BatchNumbersAreRight` | python/eggroll/federation/_rollsite_impl_grpc.py:50-94 | all batch numbers are right iff no retry of a stream after the first was pulled before that stream's first attempt; then every packet marked finished carries the true number of batches |
| `PushRun.LatePushAnnouncesFewer` | python/eggroll/federation/_rollsite_impl_grpc.py:50-94 | otherwise a finished push announces fewer batches than there are, and has sent a packet under every number up to the announced one |
| `PushRun.StaleRetry` | python/eggroll/federation/_rollsite_impl_grpc.py:50-56 | on the first stream such a retry happens too, and only spoils stream numbers: stream 1 is sent as stream 0 |
| `PushRun.LateRetry` | python/eggroll/federation/_rollsite_impl_grpc.py:50-56 | on the second of two streams it sends batch 2 under number 1 and announces one batch in all |
| `PushRun.FinishedPushGeneratesAll` | python/eggroll/federation/_rollsite_impl_grpc.py:335-381 | a push that succeeded with its last stream has generated every packet |
| `RollSitePull.BatchStreamStatus.CountBatch` | python/eggroll/computing/tasks/impl/_roll_site_ops.py:310-325 | sets the batch's pair count, adds to the stream's, and records the header's arrival |
| `RollSitePull.BatchStreamStatus.SetDone` | python/eggroll/computing/tasks/impl/_roll_site_ops.py:299-308 | records the totals and notes arrival out of order |
| `RollSitePull.BatchStreamStatus.CheckFinish` | python/eggroll/computing/tasks/impl/_roll_site_ops.py:327-341 | true iff done and as many batches counted as announced; sets the finish event |
| `RollSitePull.RunPutBatch` | python/eggroll/computing/tasks/impl/_roll_site_ops.py:195-257 | stores every pair, counts every batch and checks for completion after the stream: the state is the packet-by-packet specification; it fails iff a packet has a malformed batch or a key LMDB refuses, and then the counters are those of the packets before, with the pairs in front of the refused key stored |
| `RollSitePull.AcceptsExactly` | python/eggroll/computing/tasks/impl/_roll_site_ops.py:234-241 | a packet is taken iff it has no body, or opens as a batch and LMDB takes every key in it |
| `PullRecord.HeaderArrives` | python/eggroll/computing/tasks/impl/_roll_site_ops.py:310-325 | for every sequence of received packets the header event is set iff there was one |
| `PullRecord.StreamBatchesRecorded` | python/eggroll/computing/tasks/impl/_roll_site_ops.py:310-325 | a stream is recorded iff a packet of it arrived, with the batch number of the last one |
| `PullRecord.StreamPairsRecorded` | python/eggroll/computing/tasks/impl/_roll_site_ops.py:310-325 | the pair counter of a stream is the sum over all its received packets, redeliveries included |
| `PullRecord.TotalsRecorded` | python/eggroll/computing/tasks/impl/_roll_site_ops.py:299-308 | the pull is marked done iff a finished header arrived, and the announced totals are those of the last one |
| `PullRecord.StreamTotalIsTrue` | python/eggroll/computing/tasks/impl/_roll_site_ops.py:299-341 | for every push without a stale retry and every delivery of its packets, with loss, reordering and repetition: a completed pull knows the true number of streams |
| `PullCompletion.CompletionIsExact` | python/eggroll/computing/tasks/impl/_roll_site_ops.py:299-341 | for packets received in any order, with loss and redelivery: completion is reported iff all batches 1..T are counted (T > 0), and then the partition holds exactly the pushed pairs and total_pairs is their number |
| `PullCompletion.PushedPackets` | python/eggroll/federation/_rollsite_impl_grpc.py:50-94 | every packet of a push without a late retry carries its batch under its number, the true total when marked finished, and the last batch is so marked |
| `PullCompletion.PushedTableArrives` | python/eggroll/computing/tasks/impl/_roll_site_ops.py:195-257 | the same from the push itself, for every run of attempts without a late retry and every delivery: codec, stream cutting, numbering and storing, down to the stored table |
| `PullCompletion.FullDeliveryCompletes` | python/eggroll/computing/tasks/impl/_roll_site_ops.py:327-341 | when a push without a late retry succeeded and every generated packet arrived at least once, the counters report completion, and no receiving task fails iff every batch opens and LMDB takes its keys |
| `PullCompletion.CompletionIsTrustworthy` | python/eggroll/computing/tasks/impl/_roll_site_ops.py:327-341 | for every finished push: some delivery of fewer packets than there are batches is reported complete iff a late retry happened |
| `PullCompletion.LateRetryLoses` | python/eggroll/computing/tasks/impl/_roll_site_ops.py:327-341 | a run of two streams with a late retry after which one packet completes the pull and the first batch is silently missing |
| `PullStatus.CompletionIsStable` | python/eggroll/computing/tasks/impl/_roll_site_ops.py:353-370 | redelivery after completion leaves completion, partition and totals as they were |
| `PullStatus.CollectStatus` | python/eggroll/computing/tasks/impl/_roll_site_ops.py:121-132 | all finished iff every partition is; the totals are the sums; the status map holds an answer of each partition and of no other |
| `PullStatus.TotalsAreExact` | python/eggroll/computing/tasks/impl/_roll_site_ops.py:121-132 | when all partitions answered finished, the totals are the numbers of batches and pairs pushed |
| `ObjectTransfer.GenerateObjBytes` | python/eggroll/federation/_rollsite_impl_grpc.py:189-199 | yields the numbered chunks, the last one short or empty, and raises iff a number does not fit |
| `ObjectTransfer.ChunksInKeyOrder` | python/eggroll/federation/_rollsite_impl_grpc.py:189-199 | the chunks of an object are generated in strictly increasing key order, the order in which LMDB iterates them |
| `ObjectTransfer.ObjectRoundTrip` | python/eggroll/federation/_rollsite_impl_grpc.py:507-516 | chunking, packing, streaming with redelivery, storing, sorting by number and joining gives the object back iff it has fewer whole chunks than there are numbers |
| `ObjectTransfer.PushedObjectArrives` | python/eggroll/federation/_rollsite_impl_grpc.py:189-199 | the same for four-byte numbers and every run of push attempts without a late retry: the joined bytes are the object iff its length is below 2^32 times the chunk size, empty objects and exact multiples included |
| `ObjectTransfer.OverflowLimit` | python/eggroll/federation/_rollsite_impl_grpc.py:189-199 | the chunk numbering overflows iff the length is at least 2^(8*width) times the chunk size |
| `SortedMerge.MergeIntersectingKeys` | python/eggroll/backport/_wrap_rollpair.py:621-648 | on strictly sorted inputs: strictly sorted, and under each key the merged value iff both sides have it |
| `SortedMerge.MergeUnionKeys` | python/eggroll/backport/_wrap_rollpair.py:651-696 | on strictly sorted inputs: strictly sorted, and under each key either side's value, merged where both have one |
| `SortedMerge.SubtractByKey` | python/eggroll/backport/_wrap_rollpair.py:699-740 | on strictly sorted inputs: strictly sorted, and under each key the left value iff the right side lacks it |
| `Tables.RunSortedMerge` | python/eggroll/computing/tasks/impl/_binary_sorted_map_partitions_with_index.py:29-51 | one task writes the join, union or difference of the two partitions as maps |
| `Tables.PartitionwiseMerge` | python/eggroll/computing/tasks/impl/_binary_sorted_map_partitions_with_index.py:29-51 | doing so partition by partition is the operation on the whole tables, and the result is placed like its inputs |
| `Tables.UnshuffledPlacement` | python/eggroll/computing/tasks/impl/_map_partitions_with_index.py:229-247 | a job that does not shuffle leaves every key in its partition iff the map function emits only keys of the partition it runs on |
| `RollPair.RepartitionKeepsTable` | python/eggroll/backport/_wrap_rollpair.py:347-370 | under every schedule repartition leaves the table unchanged as a map and placed by the new partitioner |
| `RollPair.OperationAfterRepartition` | python/eggroll/backport/_wrap_rollpair.py:372-438 | repartition_with under any schedule, then the partition-wise merge: the operation on the two whole maps, in the right argument order, and placed |
| `RollPair.ShuffleWrite` | python/eggroll/computing/tasks/transfer/transfer_pair.py:173-190 | routes every item to the target of its key's partition, in order, and counts them |
| `RollPair.PutAllIsInsertion` | python/eggroll/computing/tasks/impl/_multiple_store.py:98-142 | under every schedule put_all of keys LMDB takes leaves the old table with the pairs inserted left to right, duplicates included, and placed |
| `RollPair.Store.Get` | python/eggroll/computing/tasks/impl/_single_store.py:28-49 | the value of the one map, or None |
| `RollPair.Store.Put` | python/eggroll/computing/tasks/impl/_single_store.py:75-99 | updates the one map and keeps placement, unless the store rejects the pair, which changes nothing |
| `RollPair.Store.Delete` | python/eggroll/computing/tasks/impl/_single_store.py:52-72 | removes the key from the one map; success iff it was there |
| `RollPair.Store.Count` | python/eggroll/computing/tasks/impl/_multiple_store.py:145-162 | the size of the one map |
| `RollPair.Store.PutAll` | python/eggroll/computing/tasks/impl/_multiple_store.py:86-142 | inserts left to right into the one map through routing, packing, unpacking and storing; it fails iff LMDB refuses some key, and then each partition has its share up to the first refused key and the table is still placed |
| `RollPair.GetAll` | python/eggroll/computing/tasks/transfer/transfer_pair.py:349-363 | yields a prefix of each partition that reaches the limit or the end; without limit, everything in order |
| `RollPair.GatheredExactly` | python/eggroll/computing/tasks/impl/_multiple_store.py:46-50 | a partition returns exactly the limit of pairs iff it has no more or the first ones fit the send buffer together |
| `RollPair.Take` | python/eggroll/computing/tasks/impl/_multiple_store.py:170-191 | exactly min(max(n, 1), count) pairs of the table with distinct keys, for every partitioning and buffer size |
| `Reduce.ReducePartition` | python/eggroll/computing/tasks/impl/_reduce.py:29-44 | the fold of the partition's values, None when it is empty |
| `Reduce.Combine` | python/eggroll/computing/tasks/impl/_reduce.py:60-63 | the fold of the results that are neither None nor empty bytes |
| `Reduce.ReduceIsFold` | python/eggroll/computing/tasks/impl/_reduce.py:29-63 | for every associative and commutative operation, table and completion order: the driver's result is the fold over all values iff no partition folds to empty bytes, or some partition folds to something else and folding the empty strings into that does not change it |
| `Reduce.SerializedReduce` | python/eggroll/computing/tasks/submit_utils.py:138-149 | for non-empty values and an operation that keeps them so, the result in any completion order is the fold over all values, None iff the table is empty |
| `Reduce.DroppedEmptyResult` | python/eggroll/computing/tasks/impl/_reduce.py:60-60 | the condition matters: a table whose reduce differs from the fold because an empty result was dropped |
| `Gc.GcRecorder.IncreaseRefCount` | python/eggroll/computing/roll_pair/_gc.py:77-94 | counts in-memory stores only, from zero when untracked |
| `Gc.GcRecorder.DecreaseRefCount` | python/eggroll/computing/roll_pair/_gc.py:96-114 | a count that reaches zero is removed and queued, and so is an untracked store |
| `Gc.TableHandle.constructor` | python/eggroll/computing/roll_pair/_roll_pair.py:44-59 | collects only in-memory stores, and counts when enabled |
| `Gc.TableHandle.RegisterGc` | python/eggroll/computing/roll_pair/_roll_pair.py:61-63 | enables collection and counts once more |
| `Gc.TableHandle.Destroy` | python/eggroll/computing/roll_pair/_roll_pair.py:170-176 | marks the handle destroyed, or fails when it was |
| `Gc.TableHandle.Finalise` | python/eggroll/computing/roll_pair/_roll_pair.py:93-109 | gives a count back unless the session stopped, the handle was destroyed or collection is off |
| `Gc.CountsAreExact` | python/eggroll/computing/roll_pair/_gc.py:77-114 | after any history of handles the recorded count of a store is the counts its handles took and have not given back |
| `Gc.NeverUntracked` | python/eggroll/computing/roll_pair/_gc.py:103-104 | a finaliser that decrements always finds its store recorded with a positive count: the untracked branch is unreachable |
| `Gc.QueuedExactlyWhen` | python/eggroll/computing/roll_pair/_gc.py:112-114 | a store is queued by the finaliser of the last handle that holds a count on it, itself counted once, and by no other event |
| `Gc.StuckNeverQueued` | python/eggroll/computing/roll_pair/_roll_pair.py:98-100 | the store of a counted handle that was destroyed by hand, or counted twice, is never queued again |
| `Gc.AllFinalisedIsQueued` | python/eggroll/computing/roll_pair/_roll_pair.py:93-109 | without such handles nothing leaks: once all handles of a counted store are finalised in a running session it has been queued and is no longer recorded |
| `Gc.LeaksExactlyWhen` | python/eggroll/computing/roll_pair/_roll_pair.py:93-109 | once all handles of a store are finalised in a running session, it is no longer recorded iff none of them was destroyed by hand while counted or counted twice |
| `Gc.LeakHappens` | python/eggroll/computing/roll_pair/_roll_pair.py:98-100 | the history create, destroy, finalise leaves the store recorded and unqueued |
| `Gc.FinaliserAfterStop` | python/eggroll/computing/roll_pair/_roll_pair.py:93-98 | once the session was stopped no finaliser changes the records, whatever happened before and after |
| `LmdbCache.LmdbAdapter.constructor` | python/eggroll/computing/tasks/store/_lmdb.py:53-105 | opens or shares the path's environment and counts the adapter |
| `LmdbCache.LmdbAdapter.Close` | python/eggroll/computing/tasks/store/_lmdb.py:135-180 | gives the count back, drops the path with the last one; a closed adapter changes nothing; a missing count is the KeyError |
| `LmdbCache.OpenGives` | python/eggroll/computing/tasks/store/_lmdb.py:53-105 | after any history, opening a path that is not cached stores and returns exactly the opened environment and database with count 1; a cached path gives the shared ones and counts one more |
| `LmdbCache.CacheIsExact` | python/eggroll/computing/tasks/store/_lmdb.py:53-105 | after any opens and closes: the three dictionaries have the same paths, a path is cached iff it has an open adapter, its count is their number, and they share one environment and database |
| `LmdbCache.ReleasedExactlyWhen` | python/eggroll/computing/tasks/store/_lmdb.py:135-180 | closing an open adapter always finds its count, and takes the path out of the cache iff no other adapter of the path is open |
| `LmdbCache.SecondCloseIsNothing` | python/eggroll/computing/tasks/store/_lmdb.py:135-138 | a second close of an adapter changes nothing, whatever happened in between |

## Left out

- gRPC, protobuf and cloudpickle, the channel factory, command client and routing: a stream is a sequence of messages, its transport an unbounded sequence.
- Failures inside a shuffle (an exception in a thread, a broken connection): the shuffle theorems are about failure-free runs; what an exception loses is stated for the codec, for `do_store` and for the shuffle-write block.
- LMDB itself and mmh3: that LMDB refuses a key (BadValsizeError) is a parameter, `rejects`.
- Shuffle jobs that declare fewer writers than there are map tasks; `JobTasks.DecomposeTasks` excludes them.
- `TransferService`'s registry of brokers by tag, its events and its removal races.
- The local brokers and the transfer brokers have one capacity each, any value; `Queue` timeouts are steps that change nothing.
- Format.ReadAllInlined: a negative length field is reported and ends the model's loop; the original goes on with negative slice bounds. The writer never produces one.
- Format.ReadAllBuffered: the same for negative length fields.
- BinBatch.BinBatchToPair: the same for batches with negative length fields.
- Format.ArrayByteBuffer.WriteBytes: explicit positions are not negative; the file-backed buffer is not modelled.
- Format.ArrayByteBuffer.WriteInt32: explicit positions are not negative.
- Format.ArrayByteBuffer.ReadBytes: explicit positions and sizes are not negative.
- Format.ArrayByteBuffer.ReadInt32: explicit positions are not negative.
- Broker.ShuffleWriteBlock: the queue is unbounded, so that the block runs to its end alone; bounded queues and interleaving are in `HopRun`, `BrokerRun` and the shuffle.
- PushRun.NumberingIsRetrySafe: any number of attempts; the retry limit, back-off and time-outs are not modelled.
- PullCompletion.CompletionIsExact: the receiving partition starts empty and keys are distinct, as in a push of a table; the per-stream pair counter counts redeliveries again (`PullRecord.StreamPairsRecorded`).
- Gc.CountsAreExact: handle events are atomic, as under the reference-count lock; the worker thread that empties the queue and `flush` are not modelled.
- LmdbCache.CacheIsExact: opens that raise inside LMDB, and the transactions of an adapter, are not modelled.
- Reduce.SerializedReduce: needs the operation to keep values non-empty; the general case is `Reduce.ReduceIsFold`.
- `keys_only` of take, and key serdes and lifting of functions in the wrapper: the functions are parameters on bytes.
- The thread pool's worker cap, the cluster and node managers, the roll-site proxy, sessions, configuration, deployment, the dashboard and the JVM side.
