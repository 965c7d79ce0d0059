# A verified model of the serving engine

This project models the inference core of the repository and proves its properties with Dafny:

- the paged KV-cache (`src/cache/`): a block pool with a LIFO free list, reference counts, one block
  table per sequence and an LRU order;
- the request queue (`src/engine/scheduler.py`): pending, running and completed requests, FCFS or
  priority order, timeouts and cancellation;
- the continuous-batching engine (`src/engine/batching.py`): admission with eviction and retry, the
  padded forward pass, sampling, retirement, and the drain loop;
- the streaming generator (`src/api/streaming.py`): token-by-token decoding with past key-values;
- the metrics collector (`src/api/metrics.py`): its sliding window and the report computed from it.

## How it is organised

Each stateful part appears twice. Once on values: a datatype holding the state, and functions saying
what each operation does to it (`CacheModel`, `SchedulerModel`, `EngineModel`, `Sampling`, `Decoding`).
Once in the form the code has, as classes with mutable fields, loops and arrays (`CacheManagement`,
`RequestScheduling`, `ContinuousBatching`, `TokenSampler`, `Streaming`, `Metrics`). Every class method
states its whole effect: the abstract value of the object after the call (`View()`) is the
corresponding function of the abstract value before it. The theorems are then about the functions, for
every history of operations: an operation sequence is a list of `CacheOp`, `SchedulerOp` or `EngineOp`
values, and `Run` is the state it leads to. What each function means is stated beside them on the fields of
its inputs and results, with the constants of the code written out: `SchedulerFields` for the queue,
`SamplingMeaning` for the distribution a token is drawn from, `EngineRequests` for an admission,
`Streaming.StreamMeaning` and `Metrics.ReportMeaning` for what clients are sent.

Reading order for the main results: `CacheHistory`, `CacheGrowth`, `SchedulerFields`, `SchedulerTheorems`,
`EngineRequests`, `EngineTheorems`, `EngineDrain`, `EngineBounds`, `EngineSizing` and `EngineSmallPool` (the pool size that
suffices, and that no smaller one does), `EngineDisposition`, `EngineRecords`, `Streaming`,
`SamplingTheorems`, `SamplingMeaning`, `Metrics`. `Witnesses` holds one concrete run for each surprising behaviour.

Conventions of the model:

- Python's insertion-ordered dictionary of active sequences is the sequence of its values.
- Blocks per token count are computed one block at a time in `CacheModel.TokensToBlocks`;
  `CacheInvariant.TokensToBlocksFormula` proves that this is the rounded-up quotient of the code.
- A `MemoryError` or `KeyError` is a constructor of the result type of a cache operation. The one `KeyError`
  that would abort an engine iteration, evicting an LRU entry without a table, never happens: that every
  entry has a table (`CacheManager.Listed`) is part of the engine's class invariant, every operation keeps
  it, and `EvictBlocks` says that the outcome is not that error.
- Time is a parameter. A scheduler or engine call reads the clock once, as `now`; a drain reads
  `clock(i)` in iteration i. No theorem about the queue, the cache or the engine needs time to advance.
- Logits, probabilities, temperatures and latencies are reals, not floats. The metrics report rounds as the
  code does, halves to even. Minus infinity is a constructor of `Logit`. When every logit is masked the softmax is all zeros here, where the code gets NaN.

Premises on code the repository calls and does not contain (`Decoding.Backend`), each named where a
theorem uses it:

- `Causal`: the logits at a position of a row depend only on the tokens up to it.
- `PerPosition`: the model returns one logit vector for each position of a row.
- `CacheAgrees`: running the model on new tokens against past key-values gives the logits of the last
  position of the whole row. Past key-values are represented by the tokens they were computed from.
- `Tokenizes`: the tokenizer returns at least one token.
- `IsExp`: the exponential is positive and increasing.
- Rows of a batch do not influence each other.

`Decoding.PremisesCanBeMet` exhibits a model that satisfies all of them. Multinomial draws are an
oracle: the n-th draw from a distribution. Which distribution each token of each request is drawn from, or the
maximum of which logits it is, is stated for every request (`EngineTheorems.EveryTokenIsSampled`,
`Decoding.SampleMeaning`). Only the theorems that equate an output with decoding its prompt alone are about
greedy requests, those whose temperature is below 0.01.

What callers owe, as in the code: a request id is new when it is submitted, and not empty; a request is
submitted in its initial status; a cache id is new when it is allocated and live when it is looked up.
Where the code misbehaves without these, a lemma says exactly when it does (`SchedulerHistory.SubmitExact`,
`EngineAdmission.EmptyIdEvicted`, `CacheHistory.AllocateLiveId`, `CacheHistory.LookupUnknownId`).

## Where the code and its documentation differ

The model follows the code.

- `docs/design-decisions.md` (DD-3) and the comment at the top of `batching.py` admit new sequences after the forward pass.
  `step` admits first, so a slot freed in an iteration is filled in the next one.
- `docs/architecture.md` shows tables covering all tokens of a sequence, and its table of engine modes promises
  block-level management of the growing cache. The engine never calls `extend_sequence` or `get_block_table`: a table
  covers the prompt only, and the LRU order of a running engine is admission order (`NoBlockIsLeaked`).
- `max_tokens` below 1, which the API rejects, still generates one token in the batching engine and none in the
  streaming generator (`Streaming.StreamMatchesEngine`, `Witnesses.ZeroTokensDiffer`).

## What a caller may not expect

No document speaks of these. Each has its exact condition, and an input that reaches it.

- A request that is evicted or refused for memory is marked FAILED, but it stays among the running requests of the
  queue and `step` does not return it (`EngineDisposition.EveryRequestIsDisposed`; `Witnesses.EvictionHappens`,
  `Witnesses.RefusalHappens`).
- Cancelling a running request does not stop its sequence: it decodes to its end, and completing it is
  then ignored (`EngineDisposition.CancelDisposes`; `Witnesses.CancelledDecodesOn`).
- A failed `extend_sequence` is not atomic: the touch and the top-up of the last block stay
  (`CacheGrowth.FailedExtension`; `Witnesses.TopUpStays`). A failed `allocate_sequence` changes nothing.
- Allocating an id that has a table loses the blocks of the old table (`CacheHistory.AllocateLiveId`;
  `Witnesses.BlockLost`).
- Looking up an unknown id touches it, and when eviction reaches it, it raises (`CacheHistory.LookupUnknownId`;
  `Witnesses.LookupPoisons`).
- A request under an id already on record is accepted, and one of the two is lost
  (`SchedulerHistory.SubmitExact`; `Witnesses.TwinIsLost`).
- An empty request id counts as no victim after an eviction: the sequence stays in the batch without blocks
  (`EngineAdmission.EmptyIdEvicted`; `Witnesses.NamelessStays`).
- The request schema admits `top_p = 0`, which masks every token (`SamplingTheorems.NucleusLeavesSomething`;
  `Witnesses.ZeroTopPMasksAll`).
- A latency record is stamped before the lock is taken. One filed behind a later one can outlive the window
  (`Metrics.PruneExact`; `Witnesses.StaleRecordStays`).

## Model

| member | source | states |
|---|---|---|
| CacheManagement.CacheManager.constructor | src/cache/manager.py:32-53 | a new manager is the cache with every block free, free list 0, 1, ..., no tables |
| CacheHistory.NewPool | src/cache/manager.py:36-53 | a new pool is all free: free list 0, 1, ..., no tables, no touches, counters at zero |
| CacheManagement.CacheManager.BlocksNeeded | src/cache/manager.py:243-245 | the rounded-up quotient counts the blocks that filling one block at a time takes |
| CacheManagement.CacheManager.HasRoomFor | src/cache/manager.py:74-77 | true exactly when the free list holds the blocks the tokens need |
| CacheManagement.CacheManager.AllocateSequence | src/cache/manager.py:79-127 | out of memory nothing changes; otherwise the whole new cache, and the returned table is the one filed |
| CacheManagement.CacheManager.TakeBlocks | src/cache/manager.py:104-115 | the allocation loop on the real blocks: blocks, free list and table after it, whatever was in them |
| CacheManagement.CacheManager.ExtendSequence | src/cache/manager.py:129-180 | the outcome and the whole new cache, including what a failed call leaves behind |
| CacheManagement.CacheManager.FillLast | src/cache/manager.py:148-159 | how many tokens the last block takes, and that only that block changes |
| CacheManagement.CacheManager.FreeSequence | src/cache/manager.py:182-203 | the whole new cache; an unknown id changes nothing |
| CacheManagement.CacheManager.EvictLru | src/cache/manager.py:205-223 | the victim, or that there is none or that it has no table, and the whole new cache |
| CacheManagement.CacheManager.GetBlockTable | src/cache/manager.py:225-228 | the table of the id, if any, and that the id is touched, known or not |
| CacheManagement.PhysicalBlock.Release | src/cache/block.py:59-64 | a block with its last reference gone is free and empty; otherwise it only loses one reference |
| CacheInvariant.TokensToBlocksFormula | src/cache/manager.py:243-245 | counting blocks one at a time gives (n + size - 1) / size |
| CacheInvariant.PoolPartition | src/cache/block.py:54-64 | the free list and the tables partition the pool; a reference count is the number of tables holding the block; a block is FREE iff it is on the free list, and then empty |
| CacheSafety.GrabOrder | src/cache/manager.py:106-115 | blocks leave the free list from its end, last one first, and no other block is written |
| CacheSafety.GrabFills | src/cache/manager.py:106-115 | clean free blocks end up owned once and filled front to back with exactly the tokens asked for |
| CacheSafety.AllocateSafe | src/cache/manager.py:79-127 | succeeds iff the blocks are free; takes exactly the blocks at the end of the free list, last one first, and counts them; keeps the partition and every other sequence; stores exactly n tokens |
| CacheSafety.ReleaseEffect | src/cache/manager.py:192-199 | releasing a table pushes its blocks in table order, each free and empty, and writes no other block |
| CacheSafety.FreeSafe | src/cache/manager.py:182-203 | the blocks of the sequence come back at the end of the free list in table order, the partition and every other sequence are kept |
| CacheSafety.EvictSafe | src/cache/manager.py:205-223 | with live ids the victim is the front of the order and has a table, whose blocks come back in table order; the partition is kept |
| CacheGrowth.TableLength | src/cache/manager.py:243-245 | a table is exactly as long as its stored tokens need |
| CacheGrowth.ExtendSafe | src/cache/manager.py:129-180 | succeeds iff the overflow of the last block fits in the free blocks; stores exactly m more tokens, or on failure only the top-up |
| CacheGrowth.ExtendUnknown | src/cache/manager.py:141-142 | extending a sequence without a table changes nothing and raises |
| CacheGrowth.ExtendTakes | src/cache/manager.py:144-180 | the last block takes what fits in block_size less its fill; the new blocks come from the end of the free list, are appended to the table and counted; a failed call takes none |
| CacheGrowth.FailedExtension | src/cache/manager.py:146-167 | when the blocks for the overflow are not free the call fails, and it changes nothing iff the last block was full and the sequence was already the latest touched |
| CacheGrowth.GrabSplit | src/cache/manager.py:148-177 | filling the last block and then taking new ones is the allocation of the sum, block by block |
| CacheGrowth.GrowingIsAllocatingAtOnce | src/cache/manager.py:92-180 | allocate(n) then extend(m) succeeds iff allocate(n + m) does and leaves the identical cache |
| CacheHistory.RunKeepsPartition | src/cache/manager.py:79-228 | every history of legal operations, failing ones included, keeps the partition invariant |
| CacheHistory.AllocateLiveId | src/cache/manager.py:118 | allocating an id that has a table keeps the partition iff that table was empty |
| CacheHistory.LookupUnknownId | src/cache/manager.py:225-228 | a lookup keeps the invariant iff the id is live; after a lookup of an unknown id every live sequence can still be evicted in order, and the next eviction raises for that id |
| CacheHistory.StaleEntryRaises | src/cache/manager.py:205-228 | an id without a table behind n live ones is reached by exactly the eviction after the n-th, which raises |
| CacheHistory.EvictUnknown | src/cache/manager.py:214-217 | an eviction that meets an id without a table raises after taking it out of the order, and does nothing else |
| CacheHistory.PositionStored | src/cache/block.py:104-108 | a token position translates to a filled slot iff the sequence stores that many tokens |
| CacheHistory.SlotsApart | src/cache/block.py:104-108 | two positions that share a block and slot are the same position of the same sequence |
| CacheHistory.AddressTranslation | src/cache/manager.py:104-177 | in every reachable state translation is total on the tokens the history stored and undefined beyond, sends position t to slot t mod block_size of block t div block_size of the table, and is injective |
| CacheHistory.OrderByLastTouch | src/cache/manager.py:247-251 | over any history the order is sorted by the time of the last touch |
| CacheHistory.LruRefinesHistory | src/cache/manager.py:205-228 | the order lists exactly the live ids, and the victim was touched before every other live sequence |
| RequestScheduling.RequestScheduler.Submit | src/engine/scheduler.py:143-165 | accepted iff the queue is not full; the whole new queue, a zero timeout replaced by the default; each object is still filed once iff it was turned away or its id was new |
| SchedulerFields.SubmitDeadline | src/engine/scheduler.py:143-165 | accepted iff fewer than max_queue_size wait; then it is last in the queue, and its deadline is its own timeout, or the default one, after its creation |
| RequestScheduling.RequestScheduler.EnforceTimeouts | src/engine/scheduler.py:251-260 | the loop that cancels late requests one by one, as one function of the queue |
| RequestScheduling.RequestScheduler.GetNextBatch | src/engine/scheduler.py:167-199 | the batch and the whole new queue; batch objects come from the pending list, are distinct and are filed as running |
| RequestScheduling.RequestScheduler.CompleteRequest | src/engine/scheduler.py:201-215 | the whole new queue; an id that is not running changes nothing |
| SchedulerFields.CompleteByPlace | src/engine/scheduler.py:201-215 | a running request moves to completed with status, time, text and token count, and only the completion counter grows; any other id changes nothing |
| RequestScheduling.RequestScheduler.CancelRequest | src/engine/scheduler.py:217-240 | the answer and the whole new queue for pending, running and unknown ids; filed objects stay filed |
| SchedulerFields.CancelByPlace | src/engine/scheduler.py:217-240 | the answer is whether the id was pending or running; if so that request is filed as cancelled now, otherwise unchanged, and only the cancellation counter grows |
| RequestScheduling.RequestScheduler.GetRequestStatus | src/engine/scheduler.py:242-249 | the object returned is the one on record, and none is returned iff the id is unknown |
| SchedulerFields.StatusByPlace | src/engine/scheduler.py:242-249 | the lookup returns exactly the request on record under the id, in whichever place it is |
| RequestScheduling.RequestScheduler.FailRequest | src/engine/scheduler.py:97-100 | failing a filed request changes it where it is filed and nothing else |
| RequestScheduling.SortRequests | src/engine/scheduler.py:181-184 | sorting the request objects gives the stable order of their values |
| SchedulerOrder.StableSortSpec | src/engine/scheduler.py:181-184 | ascending (priority, created_at), the same requests, and equal keys in the order they had |
| SchedulerEffects.EnforceEffect | src/engine/scheduler.py:251-260 | exactly the late requests leave the pending list, in one filter, and are filed |
| SchedulerFields.TimeoutsByDeadline | src/engine/scheduler.py:74-77 | a pending request is filed as cancelled, with "Request timed out in queue", iff now > created_at + timeout_seconds; the others wait on unchanged and in order |
| SchedulerFields.LateNeverServed | src/engine/scheduler.py:167-199 | a request past its deadline is in no batch taken at that time or later, and is filed as cancelled |
| SchedulerEffects.BatchEffect | src/engine/scheduler.py:167-199 | a batch is the front of the on-time requests in policy order; the rest stays pending in that order |
| SchedulerFields.BatchInService | src/engine/scheduler.py:167-199 | a batch is the first min(k, waiting) of those in time, by (priority, created_at) ascending and equal keys as they came under "priority", else as they came; each is started now, otherwise unchanged and filed as running |
| SchedulerHistory.SubmitExact | src/engine/scheduler.py:143-165 | submitting keeps the queue in order iff the request is turned away or its id is new |
| SchedulerHistory.ApplyKeeps | src/engine/scheduler.py:143-260 | every operation keeps the places disjoint and counted and the statuses in stage, and forgets no id |
| SchedulerTheorems.NoRequestLost | src/engine/scheduler.py:143-260 | over every history the three places are disjoint, the counters add up, and every accepted id is found with its parameters |
| SchedulerTheorems.ServiceOrder | src/engine/scheduler.py:167-199 | without submissions: what was served, then what is pending in order, is the initial queue in order less the dropped |
| SchedulerTheorems.PriorityDrainIsOneSort | src/engine/scheduler.py:178-199 | a priority drain serves the stable sort of the requests not dropped, whatever the batch sizes |
| SchedulerTheorems.FcfsNeverReorders | src/engine/scheduler.py:143-199 | served then pending is the accepted submissions in order, less exactly those cancelled or timed out while pending |
| SchedulerBatches.BatchWork | src/engine/scheduler.py:189-192 | a batch smaller than asked for leaves nothing pending, and taking one never adds work |
| TokenSampler.ApplyTopK | src/engine/batching.py:292-296 | masking the array in place gives the top-k filter of the row |
| TokenSampler.ApplyTopP | src/engine/batching.py:298-310 | sorting, masking with a running sum and scattering in place gives the nucleus filter of the row |
| TokenSampler.MaskTail | src/engine/batching.py:303-307 | the running sum masks exactly the positions whose mass before them reaches top_p |
| TokenSampler.NextDistribution | src/engine/batching.py:288-313 | the distribution of the next token, filtered in place step by step |
| SamplingMeaning.DistributionMeaning | src/engine/batching.py:288-313 | on the raw logits: the survivors are the tokens fewer than top_k others beat and, for top_p below 1, the shortest run of the most likely of them with that share of the weight; they keep logit / max(temperature, 1e-7), and the probabilities are their softmax |
| SamplingMeaning.TopKCutsOff | src/engine/batching.py:292-296 | a token that top_k others beat has probability zero; with top_p at least 1 exactly the others have a positive one |
| SamplingMeaning.NothingWithoutTopP | src/engine/batching.py:298-310 | with top_p not positive every logit is masked |
| TokenSampler.ArgmaxOf | src/engine/batching.py:314-315 | the first index of a largest probability |
| SamplingTheorems.SortIsSort | src/engine/batching.py:300-302 | every index once, logits descending |
| SamplingTheorems.TopKMeaning | src/engine/batching.py:292-296 | kept are exactly the tokens that fewer than k others strictly beat |
| SamplingTheorems.NucleusMeaning | src/engine/batching.py:298-310 | for any sort: the shortest prefix with mass at least top_p is kept, each logit at its own index, all else masked |
| SamplingTheorems.NucleusLeavesSomething | src/engine/batching.py:306-307 | the filter leaves a token iff top_p is positive |
| SamplingTheorems.GreedyIsMaximiser | src/engine/batching.py:288-315 | for any top-k and any positive top_p the greedy token maximises the raw logits |
| Decoding.SoloIsCut | src/engine/batching.py:147-152 | decoding alone is the unbounded continuation cut at the first EOS or at the limit |
| Decoding.PaddingInvisible | src/engine/batching.py:250-257 | under a causal model right padding does not change the logits at the last real position |
| Decoding.EncodeIsTruncation | src/engine/batching.py:202-209 | the prompt is the first min(n, 1024) of its n tokens |
| Decoding.SampleMeaning | src/engine/batching.py:288-318 | below temperature 0.01 the token maximises the raw logits; from 0.01 on it is the draw from the distribution of those logits under the parameters of the request |
| ContinuousBatching.ContinuousBatchingEngine.SubmitRequest | src/engine/batching.py:94-96 | the answer and the whole new engine; the engine stays well-formed iff the request was turned away or its id was new |
| ContinuousBatching.ContinuousBatchingEngine.AdmitRequest | src/engine/batching.py:200-233 | the whole engine after allocation, eviction and retry, or refusal; every LRU entry still has a table |
| ContinuousBatching.ContinuousBatchingEngine.EvictVictim | src/engine/batching.py:217-221 | the whole engine after an eviction, which does not raise since every LRU entry has a table |
| ContinuousBatching.ContinuousBatchingEngine.AdmitNewSequences | src/engine/batching.py:192-233 | the admission loop as one function of the engine |
| ContinuousBatching.ContinuousBatchingEngine.PrepareBatchInputs | src/engine/batching.py:235-260 | one row per active sequence, padded on the right to the longest |
| EngineSteps.RowsMeaning | src/engine/batching.py:250-260 | every row is as long as the longest input, begins with its own input, and ends in the pad token, or 0 if there is none |
| ContinuousBatching.ContinuousBatchingEngine.SampleTokens | src/engine/batching.py:262-321 | one token per row, sampled at its last real position with the parameters of its own request |
| ContinuousBatching.ContinuousBatchingEngine.ProcessTokens | src/engine/batching.py:133-152 | every sequence takes its own token; EOS is looked at before the limit |
| ContinuousBatching.ContinuousBatchingEngine.RetireFinished | src/engine/batching.py:154-170 | finished sequences leave in batch order, and what is returned is their requests, each the object on record |
| ContinuousBatching.ContinuousBatchingEngine.Step | src/engine/batching.py:98-170 | the whole engine after an iteration; the requests returned are those of the finished sequences in order, each the object on record |
| ContinuousBatching.ContinuousBatchingEngine.RunUntilEmpty | src/engine/batching.py:172-190 | the drain loop, stopping when idle or after 10000 iterations, as one function of the engine; the requests returned are still the objects on record |
| EngineAdmission.AdmissionOutcome | src/engine/batching.py:211-233 | a request joins iff its blocks are free or are free together with the victim's; the batch grows iff they were free at once; exactly the evicted and the refused fail |
| EngineRequests.AdmissionInFull | src/engine/batching.py:200-233 | the whole batch after an admission and the whole record of every request: the new sequence starts from its first 1024 prompt tokens, prompt_tokens counts them and its table stores them; the evicted and the refused are failed now, each with its own error; nobody else changes |
| EngineRequests.AdmitInFull | src/engine/batching.py:192-233 | the queue hands over the first of those in time, in the order of service, one for each free slot; each joins the batch or is failed, the others wait on, and whoever joins starts from its own prompt with nothing generated |
| EngineRequests.FullAdmitsNobody | src/engine/batching.py:193-196 | without a free slot nothing changes, the queue included |
| EngineAdmission.EmptyIdEvicted | src/engine/batching.py:218-221 | an eviction keeps batch and cache in step iff the victim's id is not empty |
| EngineSteps.BatchTokenIsSolo | src/engine/batching.py:280-315 | the padded pass gives each greedy sequence the token it would get alone |
| EngineSteps.BatchTokenIsOwn | src/engine/batching.py:280-318 | the padded pass samples each sequence, greedy or not, at the end of its own unpadded row, with its own parameters and draw |
| EngineSteps.AdvanceKeeps | src/engine/batching.py:138-152 | a token keeps a sequence sampled and, if greedy, on the way to its solo output, or finishes it there, with the reason for it |
| EngineSteps.StepShape | src/engine/batching.py:98-170 | an iteration keeps the invariant, and what it returns is finished and decoded as if alone |
| EngineTheorems.RunKeeps | src/engine/batching.py:94-233 | every history of submissions, iterations and cancellations keeps the engine invariant |
| EngineTheorems.BatchingIsTransparent | src/engine/batching.py:98-170 | over every history: active greedy sequences hold a proper prefix of their solo output, returned ones all of it, and completed requests its text |
| EngineTheorems.EveryTokenIsSampled | src/engine/batching.py:98-170 | over every history and for every request, sampled or greedy: each token is a sample of the row of the prompt and the tokens before it under that request's parameters; active sequences have met neither EOS nor max_tokens, returned ones have just met one and name it, and completed requests carry the text of such an output |
| EngineTheorems.NoBlockIsLeaked | src/engine/batching.py:154-233 | batch, tables and LRU order hold the same ids in the same order, each table stores exactly the first 1024 tokens of its prompt in as many blocks as that needs, and an empty batch means a free pool |
| EngineDrain.StepWork | src/engine/batching.py:172-188 | every iteration of an engine that is not idle strictly reduces the tokens still to come |
| EngineDrain.RunUntilEmptyEmpties | src/engine/batching.py:172-190 | with at most 10000 tokens to come the drain ends with nothing pending, nothing active and the pool free |
| EngineDrain.DrainIsRun | src/engine/batching.py:172-190 | a drain is a history of iterations, so the history theorems cover it; it goes on exactly while something is pending or active |
| EngineDrain.RunUntilEmptyStops | src/engine/batching.py:172-190 | the drain is the fewest iterations, and at least one, after which nothing is pending and nothing active, or 10000 of them |
| EngineDrain.DrainIsTransparent | src/engine/batching.py:172-190 | every sequence a drain returns ends with an output its request may end with, and a greedy one with exactly its solo output |
| EngineBounds.AllAdmitted | src/engine/batching.py:192-233 | when no allocation fails, the whole batch taken from the queue joins, in order |
| EngineBounds.ListSchedulingBound | src/engine/batching.py:172-198 | from an empty batch: capacity * iterations <= tokens + (capacity - 1) * longest output, if no allocation fails |
| EngineSizing.RoomForPrompt | src/cache/manager.py:92-98 | in a sized pool a free slot implies room for any prompt |
| EngineSizing.StaticSizing | src/engine/batching.py:192-228 | with max_batch_size * ceil(1024 / block_size) blocks no history evicts a sequence or fails a request |
| EngineSmallPool.SmallerPoolFails | src/engine/batching.py:192-228 | the pool size is necessary: with fewer blocks, submitting a full batch of 1024-token prompts and iterating once fails a request |
| EngineSizing.SizedDrainBound | src/engine/batching.py:172-198 | in such a pool the list-scheduling bound needs no condition on memory |
| EngineDisposition.StepDisposes | src/engine/batching.py:154-228 | between iterations the running requests are the batch and the failed ones; each completed one was returned once |
| EngineDisposition.CancelDisposes | src/engine/scheduler.py:217-240 | cancelling keeps that disposition iff the request is not in the batch |
| EngineDisposition.EveryRequestIsDisposed | src/engine/batching.py:172-233 | after a full drain each accepted request is completed and returned once, cancelled, or failed for memory (evicted, or refused) and still running; both completion counts agree |
| EngineRecords.ReturnedAreRecorded | src/engine/batching.py:154-168 | a request an iteration returns is on file: COMPLETED now, with the text and length of its output, unless it was filed away before by a cancellation |
| Streaming.StreamingGenerator.GenerateStream | src/api/streaming.py:38-135 | the events of the decode loop, with the past covering all of the input but its last token |
| Streaming.StreamingGenerator.Sample | src/api/streaming.py:137-167 | the streaming sampler, which tests the raw temperature |
| Streaming.SamplersAgree | src/api/streaming.py:137-167 | both samplers choose the same token although they test greediness on different temperatures |
| Streaming.StreamIsSolo | src/api/streaming.py:62-123 | feeding only the last token against the past gives the tokens of recomputing the row |
| Streaming.StreamMatchesEngine | src/api/streaming.py:62-123 | the streamed tokens are the engine's less a trailing EOS iff max_tokens is positive or the first token is an EOS |
| Streaming.StreamEventsShape | src/api/streaming.py:88-135 | for every stream: one event per token, a finish reason on the last one only, "eos" iff it is an EOS and else "length"; no token iff max_tokens is not positive |
| Streaming.StreamMeaning | src/api/streaming.py:54-135 | for every stream: from the first 1024 prompt tokens, token i is sampled from the model run on the token before it against a past of all the rest, up to the first EOS or max_tokens; each event carries the decoded text of its token, the last one's too and none for an EOS, and the closing count leaves out an EOS |
| Streaming.StreamSamplesRows | src/api/streaming.py:62-86 | for every request, sampled too: under the cache premise token i is a sample of the whole row before it |
| Metrics.PruneIsFilter | src/api/metrics.py:201-205 | in chronological order, popping the front keeps exactly the recent records |
| Metrics.PruneDropsFront | src/api/metrics.py:201-205 | pruning drops records off the front exactly up to the first that is not too old, in any order |
| Metrics.PruneByAge | src/api/metrics.py:201-205 | in chronological order exactly the records not older than the window survive |
| Metrics.PruneExact | src/api/metrics.py:201-205 | in any order, it does so iff no stale record stands behind a recent one |
| Metrics.LaterPrune | src/api/metrics.py:201-205 | pruning again later is pruning the whole history once |
| Metrics.MetricsCollector.RecordRequest | src/api/metrics.py:55-75 | the record appended and the window pruned, whatever the stamps; the counters are the size and token sum of the history; while the clock does not run backwards the window is the history filtered by age |
| Metrics.MetricsCollector.GetMetrics | src/api/metrics.py:96-147 | the whole report, rounded, of the window as of now and of the uptime as of a later clock read |
| Metrics.ReportMeaning | src/api/metrics.py:96-147 | every field of a report, from the columns of the window: latency and time-to-first-token percentiles, mean speed, request rate, uptime, utilization, each rounded half to even |
| Metrics.MetricsCollector.UpdateGauges | src/api/metrics.py:82-94 | exactly the gauges given are replaced |
| Metrics.SortRealsSpec | src/api/metrics.py:109 | sorting the latencies is an ascending permutation |
| Metrics.PercentileRank | src/api/metrics.py:193-199 | a percentile is, to within half a hundredth, a sample with the right shares of samples at most and at least it |
| Metrics.PercentileMeaning | src/api/metrics.py:193-199 | a percentile is the value at rank min(floor(n * p), n - 1) of the ascending samples, to two decimals; 0 for none |
| Metrics.PercentilesAscend | src/api/metrics.py:193-199 | rounded percentiles ascend with the share |
| Metrics.ReportAscends | src/api/metrics.py:126-133 | in every report p50 <= p95 <= p99 for latency, and p50 <= p95 for time to first token |
| Metrics.RoundNear | src/api/metrics.py:199 | rounding moves a value by at most half a unit |
| Witnesses.TopUpStays | src/cache/manager.py:146-167 | one block of two slots holding one token: extending by five fails and leaves the block full |
| Witnesses.BlockLost | src/cache/manager.py:118 | allocating twice for one id and freeing it gives back one block of two |
| Witnesses.LookupPoisons | src/cache/manager.py:205-228 | after looking up an unknown id the first eviction succeeds and the second raises |
| Witnesses.ZeroTopPMasksAll | src/engine/batching.py:298-310 | with top_p = 0 the only logit there is becomes minus infinity |
| Witnesses.ZeroTokensDiffer | src/engine/batching.py:147-152 | with max_tokens = 0 the engine generates one token and the stream none |
| Witnesses.StaleRecordStays | src/api/metrics.py:201-205 | a stale record behind a recent one survives the prune |
| Witnesses.OneDroppedOneServed | src/engine/scheduler.py:167-260 | of two requests with a one-minute timeout, made at 0 and 50, a batch taken at 100 drops the first and serves the second |
| Witnesses.TwinIsLost | src/engine/scheduler.py:143-199 | two requests under one id are both accepted and served, and one is left on record |
| Witnesses.EvictionHappens | src/engine/batching.py:211-228 | two submissions and one iteration on a pool of one block: the first request is evicted, FAILED, still running and not returned |
| Witnesses.NamelessStays | src/engine/batching.py:218-221 | the same with an empty first id: its blocks are gone and it is still in the batch |
| Witnesses.CancelledDecodesOn | src/engine/scheduler.py:217-240 | cancelling a request of the batch files it as CANCELLED, and the next iteration still decodes it |
| Witnesses.RefusalHappens | src/engine/batching.py:224-228 | with no block at all an admission fails its request and nothing joins |

## Left out

- The FastAPI handlers, Pydantic schemas and server globals (`src/api/server.py`, `src/api/schemas.py`): request plumbing around the parts modelled here.
- Torch tensors, the model, the tokenizer and random sampling: functions of `Decoding.Backend` under the premises above; floating-point rounding is not modelled.
- The tie order of `torch.sort` and `torch.topk`: the executable filters use one fixed sort; `SamplingTheorems.NucleusMeaning` holds for every sort.
- Text formats: server-sent event framing, JSON and Prometheus output. Stream events are records.
- `src/engine/naive.py`, `src/engine/quantization.py`, `src/models/*` and `benchmarks/*`: thin wrappers over library calls.
- `get_stats`, utilization, wait times, logging and `__repr__`: no state of their own.
- `repetition_penalty` and `stream`: carried by a request and never read by the modelled code.
- Several clock reads within one call: a scheduler or engine call sees one `now`.
- `Metrics.MetricsCollector.RecordRequest`: a record and a read are atomic steps, so the counters of a report belong to the same history as its window; the code reads them after it has released the lock.
- `Metrics.MetricsCollector.GetMetrics`: rounds exact reals; the code rounds floats, whose last bit can fall on the other side of a half.
- `RequestScheduling.RequestScheduler.Submit`: the object submitted is not one that is already filed under its id; submitting the very same object twice is covered on values (`SchedulerHistory.SubmitExact`) and not on objects.
- `ContinuousBatching.ContinuousBatchingEngine.SubmitRequest`: the same. After a known id was accepted the class invariant is gone, and no later call is specified.
- `ContinuousBatching.ContinuousBatchingEngine.EvictVictim`: presumes the class invariant that every LRU entry has a table, so the `KeyError` that a foreign `get_block_table` on the same cache manager can provoke is stated for the cache manager (`CacheManagement.CacheManager.EvictLru`, `CacheHistory.StaleEntryRaises`) and not for the engine.
- `ContinuousBatching.ContinuousBatchingEngine.SampleTokens`: the n-th multinomial draw is an oracle indexed by the tokens generated so far.
- `EngineBounds.ListSchedulingBound`: needs that no allocation fails during the drain; `EngineSizing.SizedDrainBound` gives a pool size for which none does.
- Requests cancelled while their sequence is in the batch: `EngineTheorems.BatchingIsTransparent` covers them, `EngineDisposition.EveryRequestIsDisposed` excludes them.
