# Voice persona backend: verified model

This project models the stateful core of the voice persona backend in Dafny and proves properties of it that hold over
every run, history, interleaving or input. It verifies with `dafny verify dfyconfig.toml`.

| module | models |
|---|---|
| `Broker`, `Delivery`, `QueueRuns` | the message broker with its faults, what a consumer does with one delivery, and all runs of the two together |
| `Channels`, `Consumers` | the channel object, the in-process consumer and producer `TaskQueue`, the standalone `Worker` and its counters |
| `RateLimit` | the token bucket script, its key expiry, and the limiter around it |
| `Text`, `Chunker`, `SpeechPipeline` | whitespace, the sentence splitter, and one streaming turn as a producer and a speech worker that interleave |
| `LazyQueue`, `CosyVoice` | the double-checked queue factory and the shared speech subprocess, as machines whose steps are single accesses by any number of threads |
| `Ordering`, `Curation`, `Cosine`, `VectorStore`, `MemoryService`, `Jobs` | stable sort and ordered dictionaries, memory ranking, cosine similarity, the in-process vector index, the memory store with hybrid search, and the pruning job |
| `Orchestrator`, `Timeline` | the streaming turn with cancellation, phoneme intervals and viseme smoothing |

Where the code changes fields in place there is a class; each method is proved against a function of the old state, and
the properties are lemmas about that function. Protocols are step machines: a run is any sequence of steps, and a step
that is not enabled changes nothing.

## Assumptions

* Broker. A confirmed publish is stored; a publish that raises may have been stored or not; an ack or nack may be lost,
  and the call may raise either way; an unacked message may be taken back and redelivered at any time; a nack without
  requeue moves the message to the dead-letter queue, as the declared topology says. Envelope ids are unique.
* Redis. A script runs atomically. A key may vanish at any time after its time-to-live, and not before.
* Speech subprocess. End of file means the process exited; lines that are not answers do not start with a brace.
* What others do is an input: how the script's call goes, what the k-th call of synthesis returns, what the n-th run of a
  handler does, whether the broker answers a connect. Where a class has such an input as a constant, every value is
  covered.
* Clock, scores, case folding, the embedding and the Euclidean norm are parameters. Sending to the client succeeds.

## Where code and documentation disagree

The model follows the code.

* `_to_dlq` (app/queue/task_queue.py:385-391, app/queue/worker.py:362-368) says that the caller requeues the message when
  the dead-letter publish fails. Both callers nack without requeue and leave the routing to the queue's own dead-letter
  exchange. That copy keeps the attempt count it was delivered with.
* The pruning job (app/queue/jobs.py:81-87) says that it prunes stale items. It deletes by kind and key, so it also removes
  fresh items that share the pair with a stale listed one; and it looks at the listing only, so a stale item survives
  when a fresh later copy of its triple hides it there. `Jobs.SurvivesIff` gives the exact condition,
  `Jobs.FreshItemPruned` and `Jobs.StaleItemSpared` an instance of each.
* `rank_memories` applied twice changes its result for a negative limit that leaves something to cut again.
  `Curation.RankIdempotent` says exactly when it does not, `Curation.RankTwiceDiffers` gives an instance.
* `_detect_mime` indexes past the end of a lone 0xFF byte (app/ws/protocol_v2.py:280), and of no other audio
  (`Orchestrator.SniffingFails`). The error escapes the turn, which happens exactly when synthesis returned that byte
  for some text of the turn (`Orchestrator.StreamingTurnOrchestrator.Run`; `Orchestrator.LoneByteTurn` is an instance).
* For a negative duration the phoneme intervals run backwards; `Timeline.Contiguous` says this happens for no other input.
* Viseme smoothing is not checked. The frames returned stay in the range of the mouth parameters on every input exactly
  for smoothing between -1/16601 and 1 (`Timeline.RangeIff`): rounding to four decimals hides the overshoot of a slightly
  negative one. Before rounding the condition is that smoothing is a proportion (`Timeline.EasedRangeIff`).
* The speech process says that it answers each request line (app/voice/cosyvoice_worker.py:136). A line of JSON that is not
  an object with a text string raises outside the guarded part, once the model is loaded, and ends the process;
  `CosyVoice.VoiceWorker.Loop` says so. The service never writes such a line.

## Model

| member | source | states |
|---|---|---|
| QueueRuns.Conservation | app/queue/task_queue.py:331-411 | In every run, for any mix of publish, ack, nack, crash and redelivery faults, a stored job has at least one completed run or broker copy, and at most one more per fault; a job never stored leaves no trace |
| QueueRuns.NoLoss | app/queue/task_queue.py:254-272 | A job for which enqueue returned True has completed, or a copy with its id, type and payload is ready, unacked or dead-lettered |
| QueueRuns.RawConservation | app/queue/task_queue.py:335-343 | In every run there are at least as many copies of some undecodable bytes in the two queues as were published, at most one more per fault, and without faults exactly as many |
| QueueRuns.RawIsBuried | app/queue/task_queue.py:335-343 | Handling an undecodable delivery takes one copy from the work queue and appends it to the dead-letter queue, by its publish or by the queue's own dead-letter exchange |
| QueueRuns.NothingInvented | app/queue/task_queue.py:370-375 | Every envelope the broker holds carries the id, type and payload of a job that was stored |
| QueueRuns.RangeStep | app/queue/task_queue.py:361-375 | Every envelope in the work queue keeps 0 <= attempts < max_retries, whatever happens |
| QueueRuns.AmortisedDeliveries | app/queue/task_queue.py:345-383 | From any world in range, handled deliveries number at most max_retries times (messages present + arrivals + faulty deliveries) |
| QueueRuns.AttemptsAreHonest | app/queue/task_queue.py:361-362 | No copy of a job ever records more attempts than its handler has failed, under any faults |
| QueueRuns.FaultFreeLife | app/queue/task_queue.py:345-383 | Without faults a stored job is in exactly one place: queued with its failures on record, completed once before exhausting its attempts, or dead-lettered once after exactly max_retries failures, or none when its type has no handler |
| QueueRuns.AlwaysFailing | app/queue/task_queue.py:358-381 | For every job and every max_retries: a job that always fails is delivered exactly max_retries times and then is in the dead-letter queue once, with that many attempts and its error, and nowhere else |
| QueueRuns.FinallySucceeding | app/queue/task_queue.py:358-383 | A job that succeeds after n < max_retries failures is completed once and leaves both queues empty |
| Delivery.CommandsSent | app/queue/task_queue.py:335-383 | The exact publish, headers and settlement for an undecodable body, an unknown type, a success, a retry and an exhausted job, with the publish confirmed or not |
| QueueRuns.TallyStep | app/queue/task_queue.py:331-383 | A step never lowers the number of copies and completions of a job, and raises it only by a fault or by storing the job |
| Delivery.SettleWeight | app/queue/task_queue.py:223-251 | What a publish followed by an ack or nack does to any measure of the two queues, for every combination of faults |
| Broker.SumWithout | app/queue/task_queue.py:399-404 | An ack removes exactly the one unacked entry that has its tag |
| Channels.Channel.BasicPublish | app/queue/task_queue.py:223-251 | A publish raises exactly when it was not confirmed, though it may have been stored |
| Channels.Channel.BasicAck | app/queue/task_queue.py:399-404 | An ack takes effect or is lost, whether or not the call raises |
| Channels.Channel.BasicNack | app/queue/task_queue.py:406-411 | A nack requeues, or dead-letters through the topology, or is lost |
| Consumers.TaskQueue.Enqueue | app/queue/task_queue.py:254-272 | With a channel open or to be had, exactly one publish of the job with attempts 0, and True exactly if it is confirmed; otherwise nothing; on failure the channel is dropped |
| Consumers.TaskQueue.HandleDelivery | app/queue/task_queue.py:331-383 | The handler of a registered type runs once on the payload, and no other does; the delivery is one step of the run machine with that outcome and issues exactly the commands of the shared policy |
| Consumers.TaskQueue.Consume | app/queue/task_queue.py:275-329 | Every message yielded is settled, in order, and counted; the drain goes on until an idle tick, a lost channel, max_messages or the end of its patience; it is aborted exactly when there is no channel or it is lost |
| Consumers.Worker.HandleDelivery | app/queue/worker.py:288-359 | The same handler runs and the same commands as TaskQueue.HandleDelivery for the same body, outcome and faults, counted under one outcome |
| Consumers.Worker.Run | app/queue/worker.py:253-286 | Every message yielded up to the stop is settled, in order, and counted, and none after it; only a stop, a lost channel or the end of its patience ends the run |
| Consumers.OneSettlement | app/queue/worker.py:301-359 | Every command sequence of the policy holds exactly one ack or nack |
| Consumers.MatchedHandled | app/queue/worker.py:275-276 | Handling a message settles that delivery and no other |
| Consumers.CountersBalance | app/queue/worker.py:288-359 | Deliveries = processed + retried + dead-lettered + nacked; failed = retried + max-retries dead-letters + nacks after a failure |
| RateLimit.WindowBound | app/infra/rate_limit.py:60-101 | With refill and a clock that does not go back, at most capacity + refill * length calls are allowed in any window, across every expiry and reseeding |
| RateLimit.PaidFromLevel | app/infra/rate_limit.py:74-88 | The potential argument: what is allowed from some time on is paid for by the level at that time and the refill since |
| RateLimit.BurstThenNothing | app/infra/rate_limit.py:113-115 | Without refill a key that is not evicted allows at most capacity calls for ever |
| RateLimit.BurstIsCapacity | app/infra/rate_limit.py:68-96 | A user not seen before gets exactly capacity calls at one instant |
| RateLimit.TtlBounds | app/infra/rate_limit.py:123-130 | The time-to-live is an hour without refill, else the first whole second after two full refills, but at least a minute |
| RateLimit.ExpiryUnobservable | app/infra/rate_limit.py:98-99 | The expiring bucket answers every history exactly as one that never expires |
| RateLimit.TtlOutlastsRefill | app/infra/rate_limit.py:123-130 | By the time a key may vanish its bucket is full again |
| RateLimit.DenialsUnobservable | app/infra/rate_limit.py:84-98 | Erasing any denied calls from a history changes no other answer, under any evictions of either history |
| RateLimit.RetryAfterExact | app/infra/rate_limit.py:86-96 | After a denial with retry_after r at time t, the calls before t + r are denied and the first from then on is allowed |
| RateLimit.BoundsKept | app/infra/rate_limit.py:74-88 | For any clock, tokens stay between 0 and capacity, and a denial names a positive wait |
| RateLimit.LevelSemigroup | app/infra/rate_limit.py:74-82 | Refilling in two stretches, with the cap between, is refilling in one |
| RateLimit.Store.EvalTokenBucket | app/infra/rate_limit.py:53-102 | The script's answer and new bucket are the specified ones, its key expires one ttl later, other keys are untouched |
| RateLimit.TokenBucketLimiter.Allow | app/infra/rate_limit.py:135-169 | Without a server, or when the script's call goes wrong, the caller is let through; otherwise the bucket decides: a new user is let through, and one whose key is alive exactly if its tokens and the refill since make one; no other user's bucket changes, except by expiring |
| RateLimit.Key | app/infra/rate_limit.py:132-133 | The key has the prefix and holds no control character |
| RateLimit.KeyKeeps | app/infra/rate_limit.py:132-133 | Every printable character of the user id stands in the key, in order, and nothing else follows the prefix |
| Chunker.StreamConserves | app/llm/streaming.py:25-95 | For every delta sequence the emitted chunks and the flushed tail are the input up to whitespace; every chunk is non-empty and trimmed |
| Chunker.BufferBound | app/llm/streaming.py:61-88 | After any deltas the buffer is shorter than the active limit plus the surplus characters of the deltas; under the limit for one-character deltas |
| Chunker.NoSentenceWaits | app/llm/streaming.py:34-59 | Once a first chunk is out, or goes out at a clause mark, no complete sentence stays in the buffer after a push |
| Chunker.NoSentenceIff | app/llm/streaming.py:6 | A text holds no complete sentence if and only if it has none of the sentence marks, no line end and no three dots |
| Chunker.SentenceMatches | app/llm/streaming.py:6 | A match is a whole run of sentence marks, of line ends, or of at least three dots |
| Chunker.PieceEndsAtMatch | app/llm/streaming.py:34-59 | Every piece cut off runs through no match but the first one behind its start, and ends with that |
| Chunker.FirstClauseGoes | app/llm/streaming.py:31-59 | The first chunk is all of the buffer up to the end of its first run of clause marks, and then it is as if the text behind it had only just come |
| Chunker.SentenceGoesFirst | app/llm/streaming.py:34-59 | Once a chunk is out the first sentence in the buffer goes, however long the buffer is, and then it is as if the text behind it had only just come |
| Chunker.CutShift | app/llm/streaming.py:34-59 | Cutting on from some position is cutting what stands behind it |
| Chunker.SoftCutIs | app/llm/streaming.py:63-81 | An overlong buffer is cut after its last comma below the limit, else before its last space there, else at the limit |
| Chunker.ShortIsKept | app/llm/streaming.py:61-63 | A buffer under the limit, 12 before the first chunk, with no match in it is kept whole |
| Chunker.SentenceChunker.Push | app/llm/streaming.py:25-90 | The three in-place splitting passes compute the specified state and output |
| Chunker.SentenceChunker.Flush | app/llm/streaming.py:92-95 | Returns the trimmed buffer and empties it |
| SpeechPipeline.EveryInterleaving | app/ws/handler.py:286-392 | At every moment of every interleaving the chunks taken, queued and pending are the splitter's output in order, each once; each take is tried once; audio is what was synthesized; "speaking" comes at most once and before all audio; the worker has seen the end exactly when the queue is drained after it |
| SpeechPipeline.FinishedTurn | app/ws/handler.py:385-392 | A finished turn took and showed every chunk, together the model's text up to whitespace; "speaking" was requested exactly once; with no failures all of it was spoken |
| SpeechPipeline.TriedIsWoven | app/ws/handler.py:293-319 | Each synthesized text is made of the consecutive chunks of one take, at positions one behind the other, with a full stop in between exactly where neither of the characters that meet is a listed mark, and nothing else; a take went on only while under its own target, 20 characters in fast mode until a synthesis had worked and 90 otherwise |
| SpeechPipeline.WovenJoins | app/ws/handler.py:311-319 | The same for every list of non-empty parts |
| SpeechPipeline.JoinedNeighbours | app/ws/handler.py:316-318 | Such a text splits around any two neighbouring parts and the mark between them |
| SpeechPipeline.GapsAreAllThatIsAdded | app/ws/handler.py:316-318 | Taking the inserted stops out again gives the parts, joined |
| SpeechPipeline.NoDeadlock | app/ws/handler.py:286-392 | Until the turn is finished the producer or the worker can move |
| SpeechPipeline.StepsDecrease | app/ws/handler.py:286-392 | Every step of producer or worker lowers the number of steps the turn can still take |
| SpeechPipeline.EveryTurnFinishes | app/ws/handler.py:286-392 | Every interleaving takes at most six steps, one per delta and five per chunk, and can only stop in a finished turn |
| SpeechPipeline.MergeParts | app/ws/handler.py:310-319 | The merge loop joins the stripped non-blank parts in that way |
| SpeechPipeline.TakeMore | app/ws/handler.py:293-308 | The get_nowait loop takes what the specification of a merge takes |
| SpeechPipeline.GatherStops | app/ws/handler.py:299-308 | A merge takes a further chunk only while short of the target, and stops short of it only at the end or on an empty queue |
| SpeechPipeline.HeldBack | app/ws/handler.py:273-275 | While the model streams, the text held back is under 12 characters before the first chunk, then under 20 in fast mode and 24 otherwise, beyond the surplus of the deltas |
| SpeechPipeline.OneFiller | app/ws/handler.py:364-374 | At most one filler is played |
| LazyQueue.OneQueue | app/queue/task_queue.py:450-494 | Under any schedule of any threads at most one queue is built and connected, all calls return the same, none sees the attempted flag before the cache is final, and at most one thread is in the factory and one in the channel section |
| LazyQueue.CacheIsOutcome | app/queue/task_queue.py:469-494 | Once the flag is set the cache holds a queue if and only if that one was connected and the broker answered; a configured process made exactly one connect and another none; every finished call returned the cache |
| LazyQueue.SoloCall | app/queue/task_queue.py:465-494 | One thread alone gets the connected queue, or None when it is not configured or not reachable |
| LazyQueue.CacheIsFinal | app/queue/task_queue.py:461-494 | Once the flag is set no step alters the cache, builds or connects |
| LazyQueue.ChannelIsCached | app/queue/task_queue.py:254-272 | A thread in the channel section holds its lock and works on the one cached queue |
| CosyVoice.OneLiveProcess | app/voice/tts_service.py:63-98 | At most one speech process is alive, whatever threads and processes do |
| CosyVoice.AnswersPair | app/voice/tts_service.py:114-134 | Every successful synthesis got the response computed for its own request line |
| CosyVoice.RequestsBalance | app/voice/tts_service.py:119-134 | In every run the requests written are those answered, those still on some pipe as a request or an answer, and those written to a process that had exited |
| CosyVoice.ReaderIsServed | app/voice/tts_service.py:124-134 | A thread waiting for a living process is owed exactly the answer to its request |
| CosyVoice.AnswerArrives | app/voice/tts_service.py:124-134 | When that process answers, the thread gets the answer |
| CosyVoice.SoloSynthesis | app/voice/tts_service.py:114-134 | One thread alone spawns a process, asks it and gets its answer |
| CosyVoice.InvStep | app/voice/tts_service.py:63-134 | The pipes of the current process hold no traffic but the lock holder's one request, after every step |
| CosyVoice.VoiceWorker.Loop | app/voice/cosyvoice_worker.py:155-165 | One reply for each non-blank input line read, in order, with audio exactly where the model gives some; all lines are read, unless with the model loaded an odd one comes |
| CosyVoice.LoadedOnce | app/voice/cosyvoice_worker.py:33-39 | After the first attempt to load the model that works there is no other, and no text is spoken before |
| CosyVoice.VoiceWorker.Synthesize | app/voice/cosyvoice_worker.py:73-132 | Raises exactly on an odd request with the model loaded; a reply is never ok without text or without a loaded model |
| Ordering.SortIsStable | app/memory/curation.py:103 | The sort descends, keeps the order of equal scores, and permutes |
| Ordering.StableSortUnique | app/memory/curation.py:103 | Those facts determine the sorted sequence |
| Ordering.CollectKeys | app/memory/curation.py:91-97 | Filling an ordered dictionary leaves one item per key, keys by first appearance |
| Ordering.CollectBest | app/memory/curation.py:91-97 | With replacement by better scores, the item of each key is the first of its best ones |
| Curation.DedupMemories | app/memory/curation.py:91-97 | The dictionary loop computes that collection for (kind, key, value) |
| Curation.RankMemories | app/memory/curation.py:100-104 | Fresh, deduplicated, sorted, cut |
| Curation.RankingSpec | app/memory/curation.py:100-104 | The ranking descends, has one item for each distinct fresh triple, and orders equal scores by the first appearance of their triples |
| Curation.RankedIsBest | app/memory/curation.py:91-97 | Every ranked item is the first best-scored fresh copy of its triple |
| Curation.RankIsOptimal | app/memory/curation.py:100-104 | When a fresh triple is omitted, the result is full and no copy of it beats a returned item |
| Curation.RankIsPrefix | app/memory/curation.py:104 | A smaller limit gives a prefix, of min(limit, distinct fresh triples) items |
| Curation.RankIdempotent | app/memory/curation.py:100-104 | Ranking a result again changes nothing if and only if the limit is not negative or drops at least as many items as there are distinct fresh triples |
| Curation.RankTwiceDiffers | app/memory/curation.py:104 | Two items and a limit of -1: the first ranking keeps one, the second none |
| Curation.StaleAfter | app/memory/curation.py:29-37 | The days after which each kind goes stale; others, and unreadable stamps, never |
| Cosine.CauchySchwarz | app/memory/vector_store.py:52-68 | The inequality behind the range of similarities, for vectors of any dimension |
| Cosine.SimilarityInRange | app/memory/vector_store.py:52-68 | Every similarity lies in [-1, 1] |
| Cosine.LawOfCosines | app/memory/vector_store.py:57-68 | The similarity is the cosine that the norms of two vectors and of their sum determine |
| Cosine.SimilarityToSelf | app/memory/vector_store.py:55-68 | A vector has similarity 1 to itself; zero rows and queries give 0 |
| VectorStore.QueryIsTopK | app/memory/vector_store.py:145-162 | A query returns the first min(k, n) entries of the stable descending order, with their similarities; all entries left out come later in it |
| VectorStore.ArgsortSpec | app/memory/vector_store.py:156-158 | The order is a permutation of the positions, best first, ties by insertion |
| VectorStore.RemovedSpec | app/memory/vector_store.py:164-174 | Deleting an id takes its entry out and leaves the others in order |
| VectorStore.UpsertedSpec | app/memory/vector_store.py:131-143 | Upserting replaces a known id's entry in its place and appends a new one's |
| VectorStore.NumpyVectorIndex.Upsert | app/memory/vector_store.py:124-143 | The parallel lists and the position map stay inverse and represent an insertion-ordered map with the entry inserted or replaced |
| VectorStore.NumpyVectorIndex.Delete | app/memory/vector_store.py:164-174 | The same for deletion, with the positions renumbered |
| VectorStore.NumpyVectorIndex.DeleteAll | app/memory/vector_store.py:176-181 | The same for clearing |
| VectorStore.NumpyVectorIndex.Query | app/memory/vector_store.py:145-162 | Computes the specified top k; a query of the wrong dimension is an error only on a non-empty index |
| MemoryService.DeleteInStep | app/memory/service.py:319-334 | Deleting the entries of the removed items one by one leaves exactly the entries of the kept items |
| MemoryService.AppendInStep | app/memory/service.py:127-144 | Indexing an item with a new uid appends its entry |
| MemoryService.EntryIs | app/memory/service.py:132-144 | The entry of a stored item: its uid, its key and value with a space between and the embedding of that text, and its five metadata fields |
| MemoryService.MemoryService.constructor | app/memory/service.py:149-154 | The index starts out holding exactly the entries of the loaded items when their uids are distinct and indexing does not fail, and otherwise only entries of theirs |
| MemoryService.MemoryService.Write | app/memory/service.py:248-275 | Items with a blank key, a value under 2 characters, or 8 for an ephemeral one, and recent repeats are returned but not stored; anything else is appended, persisted and, unless indexing may fail, indexed under its uid with the embedding of its key and value; the index holds exactly the entries of the items (only entries of theirs, if indexing may fail or the file repeated a uid) |
| MemoryService.MemoryService.Delete | app/memory/service.py:319-337 | Exactly the items of the kind and key go, from list, index and file; True exactly if there were any |
| MemoryService.MemoryService.EraseAll | app/memory/service.py:339-352 | Everything goes, from list, index and file, and is counted |
| MemoryService.MemoryService.FindDuplicate | app/memory/service.py:240-246 | The backward scan finds a normalized repeat among the last 200 items exactly if there is one |
| MemoryService.CollapseRuns | app/memory/service.py:228-229 | For that comparison any whitespace between two texts, however much, counts as one space |
| MemoryService.CollapseKeeps | app/memory/service.py:228-229 | Single spaces, and everything else, stay as they are |
| MemoryService.MemoryService.Search | app/memory/service.py:277-317 | With the semantic layer off or the query blank: only stored items in whose folded key, value or kind the folded query occurs, and one of every triple that has such an item; otherwise the hybrid ranking, whenever nothing raises |
| MemoryService.KeywordSpec | app/memory/service.py:278-303 | What keyword search finds, by the texts, with one result per triple |
| MemoryService.OccursIn | app/memory/service.py:282 | A query occurs in every text put together around it |
| MemoryService.OccursSplits | app/memory/service.py:282 | and in no other |
| MemoryService.KeywordLast | app/memory/service.py:288 | Of several matches with one triple the last stored is the result |
| MemoryService.HybridSpec | app/memory/service.py:182-210 | One candidate per triple, descending blended score, ties by first appearance among the candidates, at most the keyword triples plus the hits |
| MemoryService.HybridIsBest | app/memory/service.py:187-191 | Each result is the first candidate with the best similarity seen for its triple |
| MemoryService.KeywordSim | app/memory/service.py:193-194 | A keyword candidate enters with the best similarity of its uid's hits, or 0 without a hit |
| MemoryService.BlendedIs | app/memory/service.py:203-207 | The blended score is half the similarity, cut to [0, 1], plus a third of the curation score, cut to [0, 1.5]; it lies in [0, 1] and grows with both |
| MemoryService.KeywordKept | app/memory/service.py:156-163 | A keyword hit is never dropped: its triple is in the result with at least its own similarity |
| MemoryService.AddedAreHits | app/memory/service.py:193-198 | Everything else in the result is a stored item whose uid was hit, with the similarity of that hit |
| MemoryService.HitKept | app/memory/service.py:177-198 | A vector hit on a stored item is never dropped: the item's triple is in the result with at least the hit's similarity |
| Jobs.CurateMemories | app/queue/jobs.py:81-111 | Exactly the items whose kind and key match no stale listed item survive, in order; the report counts the listing, its ranking and the distinct pairs pruned |
| Jobs.SurvivesIff | app/queue/jobs.py:105-108 | An item survives if and only if no stale listed item has its kind and key |
| Jobs.ListingIsClean | app/queue/jobs.py:82-87 | After a run the empty search lists nothing stale |
| Jobs.SecondRunIdle | app/queue/jobs.py:84-86 | A second run at the same clock changes nothing and prunes 0 |
| Jobs.RankedCount | app/queue/jobs.py:103 | The ranked count is up to eight of the listed items that are not stale |
| Jobs.FreshItemPruned | app/queue/jobs.py:105-108 | A run can delete an item that is not stale |
| Jobs.StaleItemSpared | app/queue/jobs.py:91 | A run can spare a stale item that a fresh later copy of its triple hides |
| Jobs.LaterRunPrunesMore | app/queue/jobs.py:106-108 | On the same store a later run prunes at least what an earlier one would, because time only makes items staler |
| Orchestrator.StreamingTurnOrchestrator.Run | app/ws/protocol_v2.py:183-231 | With cancellation at any await and any synthesis, the monitor accepts the trace; the text returned is that of the fragments sent, which are all unless the client was told of the interruption or the turn ended in an error; the text's sentences are handed to synthesis in order, all of them without cancellation; all audio is sent in pairs but a lone 0xFF byte, on which, and only on which, the turn ends in the error |
| Orchestrator.SentencesAreText | app/ws/protocol_v2.py:213-225 | Those sentences are the text up to whitespace, each stripped and ending at a boundary but for the last, and none is kept back once complete |
| Orchestrator.MarkAtBoundary | app/ws/protocol_v2.py:267-273 | A text at a boundary ends in one of six marks, but for whitespace |
| Orchestrator.BoundaryAfterMark | app/ws/protocol_v2.py:267-273 | and every text that does is at one |
| Orchestrator.StreamingTurnOrchestrator.SynthesizeAndSend | app/ws/protocol_v2.py:233-260 | Unless cancelled or failed, one adjacent pair is sent with the text's number, the accumulated offset, the length of the audio and the last flag; raises exactly when the audio is a lone 0xFF byte, and then sends nothing |
| Orchestrator.PartialsAreNumbered | app/ws/protocol_v2.py:203-211 | In an accepted trace the partials are numbered one by one and join to the text, and there is at most one last chunk |
| Orchestrator.OffsetsAddUp | app/ws/protocol_v2.py:241-260 | In an accepted trace the offset is the sum of the durations sent |
| Orchestrator.VisemesFollowAudio | app/ws/protocol_v2.py:257-258 | Every viseme chunk follows an audio chunk of its number with nothing but a cancellation between, at the sum of the earlier durations |
| Orchestrator.AudioIsAnswered | app/ws/protocol_v2.py:257-258 | Every audio chunk is followed by its viseme chunk, unless that is the one thing still due |
| Orchestrator.AudioNumbersIncrease | app/ws/protocol_v2.py:145-147 | The numbers of audio chunks strictly increase |
| Orchestrator.OnePairAfterCancel | app/ws/protocol_v2.py:242-243 | At most one audio chunk follows the cancellation, and none if it fell inside a pair |
| Orchestrator.SniffingFails | app/ws/protocol_v2.py:276-286 | Sniffing fails on a lone 0xFF byte and on nothing else |
| Orchestrator.MimeIs | app/ws/protocol_v2.py:276-286 | Which audio is taken for which type, by its first bytes |
| Orchestrator.DurationIs | app/ws/protocol_v2.py:289-301 | The estimated length is the whole milliseconds in 16 bytes each of MPEG, 44100 a second of WAV behind its header, and 32 otherwise |
| Orchestrator.LoneByteTurn | app/ws/protocol_v2.py:276-286 | A turn that meets that byte |
| Orchestrator.AcceptedPrefix | app/ws/protocol_v2.py:183-260 | Every prefix of an accepted trace is accepted: the protocol holds at every moment |
| Timeline.EstimatedPhonemeTimestamps | app/voice/tts_service.py:421-451 | The spelling and distribution loops compute the specified phonemes and the closed-form intervals |
| Timeline.PhonemesAreKnown | app/voice/tts_service.py:410-436 | One pause per word, and every phoneme is in the viseme table |
| Timeline.WordsConserve | app/voice/tts_service.py:427 | Splitting into words loses whitespace only |
| Timeline.OneWord | app/voice/tts_service.py:427 | A text without whitespace is one word |
| Timeline.WordsPart | app/voice/tts_service.py:427 | and whitespace parts words |
| Timeline.SpellParts | app/voice/tts_service.py:431-435 | Spelling goes letter by letter, each letter taking its sounds in turn by its place in the whole |
| Timeline.LettersAToI | app/voice/tts_service.py:410-418 | The sounds of the letters from a to i |
| Timeline.LettersJToR | app/voice/tts_service.py:410-418 | from j to r |
| Timeline.LettersSToZ | app/voice/tts_service.py:410-418 | and from s to z |
| Timeline.PauseEnds | app/voice/tts_service.py:436 | A pause ends the last word, and so each |
| Timeline.SpellCounts | app/voice/tts_service.py:431-435 | One phoneme for each letter |
| Timeline.BlankIsSilence | app/voice/tts_service.py:427-429 | A blank text is 150 milliseconds of silence |
| Timeline.StepIs | app/voice/tts_service.py:443 | Each phoneme gets an even share, rounded down, or 30 when that would be less |
| Timeline.Contiguous | app/voice/tts_service.py:442-451 | The intervals follow on one another from 0; they run forwards if and only if the duration is not negative, and then end within n of it |
| Timeline.OneAtATime | app/voice/tts_service.py:442-451 | Every instant before the end lies in exactly one interval, found by one division |
| Timeline.BuildVisemeTimeline | app/voice/lipsync.py:34-56 | The smoothing loop computes one rounded frame per phoneme, or a single silent frame |
| Timeline.FramesFollow | app/voice/lipsync.py:41-51 | Each frame starts with its phoneme and shows that phoneme's viseme; a missing part is 0, or silence |
| Timeline.Lookup | app/voice/lipsync.py:29-31 | A token is looked up whole, then by its first two characters, and is rest when neither is known |
| Timeline.FrontPhonemes | app/voice/lipsync.py:3-12 | Which phonemes show each closed, open, bitten or silent mouth |
| Timeline.VowelPhonemes | app/voice/lipsync.py:3-12 | Which phonemes show each wide, middle or round one |
| Timeline.BackPhonemes | app/voice/lipsync.py:3-12 | Which phonemes show teeth, the tip of the tongue, or rest |
| Timeline.TimelineInRange | app/voice/lipsync.py:43-54 | With smoothing in [-1/16601, 1] every frame returned has mouth_open in [0.02, 0.85] and mouth_form in [0.25, 0.85], for every input |
| Timeline.RangeIff | app/voice/lipsync.py:43-54 | The frames returned are in range for every input if and only if -1/16601 <= smoothing <= 1 |
| Timeline.EasedRangeIff | app/voice/lipsync.py:43-45 | Before rounding, those ranges hold for every viseme sequence if and only if smoothing is in [0, 1] |
| Timeline.AlternateTends | app/voice/lipsync.py:43-54 | Where alternating open and closed visemes tend to, and how fast |
| Timeline.HeldViseme | app/voice/lipsync.py:43-54 | Holding a viseme for n frames is one move towards it with the n-th power of the smoothing |
| Timeline.FourDecimalsNear | app/voice/lipsync.py:50-51 | Rounding moves a value by at most half a unit and across no four-decimal bound |
| Timeline.EndToEnd | app/voice/tts_service.py:145-147 | From text to frames: one frame per phoneme, times in order and within the audio, mouths in range |

## Left out

- Sockets, the message broker client, Redis, Postgres, Neo4j, pgvector, HTTP, the speech and language models: nondeterministic results.
- JSON, base64, UUID generation, log text, metrics servers: envelopes are datatypes plus undecodable bytes, ids are inputs.
- Message bodies that decode to a non-object or carry non-numeric attempts: they raise out of the handler at app/queue/task_queue.py:345-347. Bodies that are not bytes are not modelled either.
- Floating-point rounding: tokens, scores, similarities and mouth parameters are exact reals. Byte-to-millisecond estimates are exact quotients rounded down.
- RateLimit.WindowBound: assumes that the server clock does not go back, since the script stores the earlier time (app/infra/rate_limit.py:75-78 and 98); `BoundsKept` holds for any clock.
- RateLimit.BurstThenNothing: covers the time until the key expires only, as the code's documentation promises no more.
- Consumers.TaskQueue.Consume: the channel's loss is an item of the consume generator, so a drain is interrupted between deliveries; a handler that outlives its channel is the `Straggle` step of the run machine.
- Consumers.Worker.Run: a lost connection ends the loop; that the error then escapes to the entry point is not modelled. Nor are prefetch limits.
- LazyQueue.OneQueue: runs without `reset_task_queue_cache`; a closed channel that `enqueue` reopens inside its lock is not counted as a connect of the factory.
- CosyVoice.AnswersPair: the text cleaning before a request and the decoding of a response are not modelled, nor is a response that reports an error told apart from one that carries audio.
- SpeechPipeline.EveryInterleaving: fillers may start at any producer step until audio was sent, which covers the 1.2 second rule; where a filler's audio falls relative to real audio is not claimed. Sends that fail and a worker that raises are left out. A failed synthesis is one outcome, whatever its exception.
- Orchestrator.StreamingTurnOrchestrator.Run: `asyncio.CancelledError`, failing sends and a token stream that raises are left out; viseme contents are in `Timeline`.
- MemoryService.MemoryService.Write: external databases are absent, item metadata is dropped, and writing the file succeeds and is atomic. A claim that no two of the last 200 items repeat each other would be false after deletions.
- MemoryService.MemoryService.constructor: assumes that the file is readable; the semantic flag stays fixed. When the file repeats a uid nothing more is claimed of the index than that it holds only entries of items.
- MemoryService.HybridSpec: the retrieval score arithmetic (app/memory/curation.py:40-74) is a parameter.
- VectorStore.NumpyVectorIndex.Query: vectors are sequences of reals, so there is no non-finite component and no narrowing to 32 bits.
- Timeline.EstimatedPhonemeTimestamps: case folding is a parameter, as is upper-casing for the viseme lookup; `Timeline.RangeIff` assumes that upper-casing keeps upper-case ASCII tokens.
- Session store, TTS cache and fallback chain, text cleaning and language detection, emotion and avatar mapping, persona, proactivity, safety terms: easy, or dominated by I/O.
- The browser client, scripts and HTTP routes.
