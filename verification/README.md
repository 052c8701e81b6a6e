# Verified core of the chat gateway

This project models the parts of the gateway's backend where correctness is hardest to see by
reading: the protocols between workers, the streaming turn, the retry loops, the budgets and
the text transformations. Model output, Redis, the database, HTTP results, the clock and
randomness are arbitrary inputs. Concurrent protocols are step machines with one step per
`await`; code that updates variables in loops is a method proved against a specification.

| module | what it covers |
|---|---|
| `CatalogSnapshot`, `CatalogHypotheses`, `CatalogRefresh` | per-worker catalog snapshots, Redis hash and version, publishes and refreshes in any interleaving, and what each of them leaves |
| `TurnHistory`, `TurnWorld`, `TurnEngine`, `ChatTurn` | the fallback chain, tool loop and token stream of one turn, what it takes from the model, the tools and the clock, and the endpoint that stores it |
| `GraphMerge` | merging duplicate entities of the knowledge graph in two passes |
| `ContextBudget`, `ContextBudgetLaws`, `ContextBudgetBounds` | dropping context blocks until a request fits, in tiers, characters and headers |
| `UserState` | shortening a user-state block to its salient facts |
| `TextWords`, `Chunker` | splitting a text into units and merging them into overlapping chunks |
| `CircuitBreaker`, `Failover`, `EndpointHealth` | the per-model breaker, the retry loops, the cached health verdict |
| `ToolCalls` | reassembly of streamed tool-call fragments |
| `LeaseLock`, `SlidingWindow` | the per-user lease lock and the sliding-window limiter |
| `Availability` | catalog rows under scans, throttling, delisting and administrators' edits |
| `FileHistory` | file versions and patching |
| `MemoryCache` | the bounded in-process response cache |
| `RankFusion` | reciprocal rank fusion, in the retriever and in the file search |
| `Basics` | options, flattened sequences and counting |

`dafny verify dfyconfig.toml` checks everything.

## What turned out differently from what one would expect

- Catalog freshness needs a fourth hypothesis besides serial publishes, publishes that do not
  stop between their first write to Redis and their version, and an idle publisher: two
  refreshes of the same worker must not overlap. All four are needed (`FreshExactly`). A
  refresh that fell back to the database can install its rows late, after another refresh of
  that worker recorded a newer version. `OverlappingRefreshes` is the run; the refresh guard of
  15 seconds (backend/llm/catalog/cache.py:118) makes it unlikely and does not exclude it.
- The last message of a request is not always kept by the budget allocator: an acknowledgement
  in last place goes with its block. `LastSurvives` is the exact condition.
- With fact saliences the allocator need not be idempotent: a block it shortened may be dropped
  by a second application. `IdempotentExactly` says exactly when nothing changes, and
  `UserState.RebuiltSettles` shows that the code's own filter meets its hypothesis.
- Marking the primary endpoint unhealthy does not force NIM for the TTL if some pick is already
  past the cache's answer; `MarkHoldsExactly` is the exact condition.
- A 200 with nothing usable in it, or an unexpected exception in a plain call, counts against
  the model even when it came from the primary (backend/llm/nim.py:115-131, 159-161); five of
  them block the model on NIM too (`UnusableAnswersOpen`).
- A task may stay inside its critical section for less than the lease; from the lease on, two
  tasks can be inside at once (`ExclusionExactly`).
- If a commit raises after the database took it, a later fault stores a second message
  (`StoredTwice`).
- A second merge of the graph need not leave it alone if entities are listed in another order;
  `StableExactly` says when it does for all orders.
- Requests at the same instant count once, so two of them can exceed the limit and a burst
  passes any limit; `WindowBoundExactly` is the exact condition.
- A restore returns the version's content as if it had succeeded even when the write failed
  (backend/services/file_service.py:153-154).

## Model

| member | source | states |
|---|---|---|
| `CatalogSnapshot.CatalogFreshness` | backend/llm/catalog/cache.py:110-187 | Over every run of commits, refreshes and publishes of any number of workers, with failing commands, cancelled tasks and lost Redis keys, under the four hypotheses: whenever no publish is half-written and a worker's recorded version is the current one, its snapshot is a database state no older than the one that version published. |
| `CatalogSnapshot.StepPreserves` | backend/llm/catalog/cache.py:110-187 | Every step of every task keeps the protocol invariant. |
| `CatalogSnapshot.RefreshPreserves` | backend/llm/catalog/cache.py:129-149 | A refresh step, version then entries with the database fallbacks, keeps the invariant. |
| `CatalogSnapshot.PublishPreserves` | backend/llm/catalog/cache.py:160-187 | A publish step, reload, write, prune, version, keeps the invariant. |
| `CatalogSnapshot.LossPreserves` | backend/llm/catalog/cache.py:132-143 | Losing the version or the entries at any moment, in the middle of a publish included, keeps the invariant. |
| `CatalogHypotheses.OverlappingRefreshes` | backend/llm/catalog/cache.py:138-149 | Two overlapping refreshes of one worker leave it with rows older than its recorded version; the other three hypotheses hold. |
| `CatalogHypotheses.RefreshWhilePublishing` | backend/llm/catalog/cache.py:160-185 | A refresh inside the publishing process can tag old entries with the new version. |
| `CatalogHypotheses.OverlappingPublishes` | backend/llm/catalog/cache.py:172-185 | An older publish can overwrite the entries of a newer one under the newer one's version. |
| `CatalogHypotheses.AbandonedPublish` | backend/llm/catalog/cache.py:176-187 | A publish that dies between writing and pruning leaves a mixture that the old version still vouches for. |
| `CatalogHypotheses.FreshExactly` | backend/llm/catalog/cache.py:110-187 | Every run of every deployment is fresh if and only if all four hypotheses are guaranteed. |
| `CatalogRefresh.RefreshAlone` | backend/llm/catalog/cache.py:129-143 | A refresh without faults, from any state: with no version in Redis it leaves the last database state under the version the worker had; at the current version the worker as it was; otherwise the entries in Redis, or the last database state if there are none, under the version read; and nothing else changes. |
| `CatalogRefresh.FallbackReloads` | backend/llm/catalog/cache.py:144-147 | When Redis fails a refresh at any point, or the database before the fallback, it ends with the last database state under the version the worker had. |
| `CatalogRefresh.FallbackFails` | backend/llm/catalog/cache.py:146-149 | When the database fails the fallback, the worker keeps what it had. |
| `CatalogRefresh.PublishAlone` | backend/llm/catalog/cache.py:160-185 | A publish without faults, from any state and whatever the hash held before, leaves Redis and its worker at exactly the last database state under the new version. |
| `CatalogRefresh.RefreshEnds` | backend/llm/catalog/cache.py:110-149 | In every run, without any hypothesis on it: a refresh that ends by a step of its own leaves its worker at a version Redis held since it began, with what it had or with entries Redis held no earlier than that version, or with a database state no older than its beginning. |
| `TurnEngine.GenerateStream` | backend/llm/service/stream.py:485-730 | For all chunk streams, exceptions, tool results and clock readings the turn's actions conform to the history specification and each of them answers to what the model, the tools and the clock said; a run that does not raise ends with its only ending, and it raises exactly if the preparation does or a requested tool call does; a text answer that is no cache hit is exactly the text of the last stream, which requested no tool and ended by itself; the calls and the streamed characters stay within their bounds. |
| `TurnEngine.CheckTurnBudget` | backend/llm/service/stream.py:33-47 | Which bound aborts a turn; with no abort both bounds hold. |
| `TurnEngine.ConsumeStream` | backend/llm/service/stream.py:532-564 | The token loop reads the whole stream, or up to and including the chunk that stops it; it accumulates every text it read, in order, and keeps the last tool calls; each text is a token to the client, and the turn's own character counter is that of the whole turn. |
| `TurnEngine.GuardCall` | backend/llm/service/stream.py:601-623 | The loop guard trips exactly when the call has been counted up to its limit, and otherwise executes it. |
| `TurnEngine.RunTools` | backend/llm/service/stream.py:592-687 | The tool loop runs the requested calls in order until all have run and been reported, the guard trips, a tool asks the user or something raises, and its counters equal the executions of this attempt. |
| `TurnEngine.Attempt` | backend/llm/service/stream.py:505-728 | One model of the chain, up to sixty calls: conforming, and either ended, raised by a tool, or with nothing said by its last stream, an empty client text and the counters intact for the next model. |
| `TurnWorld.AllText` | backend/llm/service/stream.py:545-547 | A stream of text chunks says exactly their texts, in order, and requests nothing. |
| `TurnWorld.LastCallsAt` | backend/llm/service/stream.py:541-542 | Of several lists of tool calls in a stream the last one counts. |
| `TurnWorld.AnswerIsStream` | backend/llm/service/stream.py:545-549 | When a text answer that is no cache hit is announced, the client has exactly the texts of the last stream, in order; that stream requested no tool and ended by itself. |
| `TurnWorld.ExecutesRequested` | backend/llm/service/stream.py:592-630 | The tools executed after a model call are the first of those its stream requested last, in order, whatever the turn does meanwhile. |
| `TurnWorld.RoundsAreComplete` | backend/llm/service/stream.py:592-687 | The next call of an attempt starts, or the loop limit is reported, only when all requested tools ran or the guard tripped. |
| `TurnWorld.ClockObeyed` | backend/llm/service/stream.py:511-557 | No call starts, and no second token follows, at or after a clock reading past the turn's time bound. |
| `TurnHistory.EndingIsLast` | backend/llm/service/stream.py:485-730 | An ending is the last action, so there is at most one. |
| `TurnHistory.ModelCallBound` | backend/llm/service/stream.py:485-533 | A history starts at most sixty model calls per model of the chain. |
| `TurnHistory.StreamedCharBound` | backend/llm/service/stream.py:483-557 | Across all rounds and models the streamed characters exceed four times the token bound plus one by less than the last chunk. |
| `TurnHistory.TokenBound` | backend/llm/service/stream.py:545-557 | No token of a model is sent once the text before it, in the whole turn, has passed the token bound. |
| `TurnHistory.ExecutionBound` | backend/llm/service/stream.py:605-623 | Between the start of an attempt and the next one, a (tool, canonical arguments) pair executes at most its limit. |
| `TurnHistory.NoToolsAfterTrip` | backend/llm/service/stream.py:533-533 | After a guard trip every later call of the attempt is made without tools. |
| `TurnHistory.CallStartsEmpty` | backend/llm/service/stream.py:525-533 | Each model call starts with an empty client text. |
| `TurnHistory.AnswerIsText` | backend/llm/service/stream.py:693-709 | The answer and the string written to the response cache are the client's text. |
| `TurnHistory.ConcatAppend` | backend/llm/service/stream.py:693-693 | The texts of an answer are joined in their order with nothing between them. |
| `TurnHistory.TextAgreement` | backend/llm/service/stream.py:689-721 | A text answer is announced directly after the answer, or its cache entry, equal to the client's text. |
| `ChatTurn.RunTurn` | backend/api/chat/stream.py:248-490 | Engine and endpoint together, over every run, disconnection and database fault: what is stored is an exact function of what happened; at most one message unless a commit raises after it was taken; without faults it is the compressed client text, or the pending question if that is empty, and after an error the stripped client text, or the notice if that is empty; the uncompressed text of an answer is what the last stream said and the string in the response cache. |
| `ChatTurn.StoredTwice` | backend/api/chat/stream.py:350-490 | Two messages are stored exactly when a commit raises after it was taken, the session is usable again, something after it raises, and the outer handler's note is committed. |
| `ChatTurn.LastQuestionAt` | backend/api/chat/stream.py:291-340 | The pending question is that of the latest `ask_user` event. |
| `ChatTurn.Endpoint.Consume` | backend/api/chat/stream.py:291-490 | Following a history to its end, or to where the client left, stores exactly what the specification says for every combination of faults, and reports the matching outcome. |
| `ChatTurn.Endpoint.HandleDone` | backend/api/chat/stream.py:334-469 | What a done event stores, records, raises and leaves of the session, for every combination of faults, a commit that raises after it was taken and a raising rollback with the session usable or not included. |
| `ChatTurn.Endpoint.PersistAbort` | backend/api/chat/stream.py:262-281 | An abort stores the partial text or a notice only if nothing was recorded, for every fault of its commit and rollback. |
| `GraphMerge.GraphStore.MergeDuplicateEntities` | backend/llm/graph_memory.py:190-308 | For any listing orders the final edges are the image of the original ones under the representatives of both passes; entities are exactly the representatives; the result counts the entities removed; surviving normal forms are pairwise distinct; a stable graph is left alone. From the listings alone: who goes in either pass, and the type a merged entity gets, the last listed one of its normal form that is not OTHER. |
| `GraphMerge.FoldIsImage` | backend/llm/graph_memory.py:230-248 | The three Cypher statements together map every edge, self-loops and edges inside the pair included. |
| `GraphMerge.ImageOfImage` | backend/llm/graph_memory.py:251-303 | The two passes compose to one quotient. |
| `GraphMerge.OverallIsQuotient` | backend/llm/graph_memory.py:190-303 | Representatives are their own representatives, and the final entities are exactly they. |
| `GraphMerge.SurvivorsDistinct` | backend/llm/graph_memory.py:200-249 | What a run leaves has pairwise distinct normal forms. |
| `GraphMerge.GraphStore.MergePass` | backend/llm/graph_memory.py:200-249 | One pass folds each group into the name it keeps, which turns the graph into its quotient, and counts what it folded. |
| `GraphMerge.FirstPassExactly` | backend/llm/graph_memory.py:200-219 | An entity goes in the first pass exactly when another one leads its normal form: the longest name, the first listed of those that tie. |
| `GraphMerge.TypedExactly` | backend/llm/graph_memory.py:213-228 | After the first pass an entity alone in its normal form keeps its type; otherwise it has the type of the last listed member whose type is not OTHER, a missing type included, and OTHER if all are. |
| `GraphMerge.SecondPassExactly` | backend/llm/graph_memory.py:259-282 | An entity goes in the second pass exactly when it has a type that is neither missing, empty nor OTHER, and the leader of that type is another entity whose normal form contains its own or is contained in it, or whose tokens include its own or are among them. |
| `GraphMerge.GraphStore.RepeatFirstPass` | backend/llm/graph_memory.py:200-249 | On distinct normal forms the first pass changes nothing, in whatever order entities are listed. |
| `GraphMerge.SecondPassIdle` | backend/llm/graph_memory.py:259-303 | With the survivors listed in the same order, each of them survives the second pass again. |
| `GraphMerge.GraphStore.MergeInOrder` | backend/llm/graph_memory.py:190-308 | On a database that lists entities in one fixed order a second run returns 0 and changes neither entities, types nor edges. |
| `GraphMerge.TieDecidedByOrder` | backend/llm/graph_memory.py:270-280 | Of two longest names each may absorb what the other does not, so another listing order merges an entity the first one left alone. |
| `GraphMerge.TieExists` | backend/llm/graph_memory.py:270-280 | Three names for which the second pass's own rule does that. |
| `GraphMerge.AllSurviveExactly` | backend/llm/graph_memory.py:200-303 | A pass merges nothing in whatever order entities are listed if and only if no longest name of a group absorbs another member of it. |
| `GraphMerge.FirstPassStableExactly` | backend/llm/graph_memory.py:200-249 | For the first pass that means distinct normal forms. |
| `GraphMerge.StableExactly` | backend/llm/graph_memory.py:190-303 | A run merges nothing for all listing orders if and only if the graph is stable: distinct normal forms, and no longest name of a type absorbs another. |
| `GraphMerge.GroupRows` | backend/llm/graph_memory.py:200-203 | Groups hold exactly the rows of their key, in order. |
| `ContextBudget.ApplyContextBudget` | backend/llm/service/context.py:269-333 | The loops compute the specified selection for the window less the output and a tenth of the window, the partial drop of user-state blocks included, and the caller's list afterwards holds the shortened blocks. |
| `ContextBudgetBounds.WindowBound` | backend/llm/service/context.py:217-333 | In characters: the quarters of the lengths of what is sent add up to at most the window less the output and a tenth of the window, unless only the last message, system messages and multi-part messages are left, or there are saliences and a user-state block for them. |
| `ContextBudgetBounds.PartialIsLast` | backend/llm/service/context.py:301-333 | With saliences and user-state blocks that bound holds as well, unless the last tier is dropped in part; then nothing of any other tier is left but what the saliences shortened. |
| `ContextBudgetBounds.WithinWindow` | backend/llm/service/context.py:276-281 | A request whose quarters, at least one per message, are within that is sent unchanged. |
| `ContextBudgetBounds.OverWindow` | backend/llm/service/context.py:276-333 | One that exceeds it and holds anything that may be dropped loses a message or has the last tier dropped in part. |
| `ContextBudgetBounds.HeaderTiers` | backend/llm/service/context.py:204-232 | The rank of every block header, and of text without one. |
| `ContextBudgetBounds.DropOrder` | backend/llm/service/context.py:291-333 | Of two blocks the one whose header ranks higher is never kept when the other is dropped. |
| `ContextBudgetBounds.AckExactly` | backend/llm/service/context.py:235-242 | The acknowledgement of a block is the first assistant message after it that begins with "Understood", with only assistant messages between. |
| `ContextBudget.DropTiers` | backend/llm/service/context.py:285-333 | Highest tier first, stopping at the first selection that fits. |
| `ContextBudget.KeepSalient` | backend/llm/service/context.py:302-311 | The salience filter's effect on the kept positions and the rebuilt messages. |
| `ContextBudgetLaws.GreedyAndMinimal` | backend/llm/service/context.py:291-333 | The result drops all tiers from some tier up and nothing else, that fits unless nothing does, and dropping fewer tiers would not. |
| `ContextBudgetLaws.FittedIsSelection` | backend/llm/service/context.py:328-333 | The result is exactly the kept positions of the rewritten list, in order. |
| `ContextBudgetLaws.FittedInOrder` | backend/llm/service/context.py:328-333 | The result lists exactly the kept messages of the rewritten list, each once and in their order. |
| `ContextBudgetLaws.AnchorsSurvive` | backend/llm/service/context.py:221-232 | System and multi-part messages are in the result for every budget and every salience filter, unchanged. |
| `ContextBudgetLaws.LastSurvives` | backend/llm/service/context.py:221-242 | The last message survives every budget if and only if no droppable block has it as its acknowledgement, except user-state blocks whose acknowledgement the saliences shorten; in particular if it is no acknowledgement. |
| `ContextBudgetLaws.LastAcknowledgementLost` | backend/llm/service/context.py:295-299 | A final acknowledgement is lost when even the smallest selection is too big. |
| `ContextBudgetLaws.AcknowledgementsPaired` | backend/llm/service/context.py:295-299 | In the result, an acknowledgement stays without its block, one that is no acknowledgement itself, exactly when the last tier is dropped in part and the saliences shorten the acknowledgement and not the block. |
| `ContextBudgetLaws.AcknowledgementAlone` | backend/llm/service/context.py:235-242 | Without saliences some budget keeps an acknowledgement without what it acknowledges if and only if that is itself the acknowledgement of a block dropped before anything that takes the other along. |
| `ContextBudgetLaws.OnlyAnchorsLeft` | backend/llm/service/context.py:291-333 | A result over the budget holds tier-0 messages only. |
| `ContextBudgetLaws.Idempotent` | backend/llm/service/context.py:269-333 | Without a partial drop in play a second application changes nothing. |
| `ContextBudgetLaws.IdempotentExactly` | backend/llm/service/context.py:269-333 | With any saliences that settle, a second application changes nothing if and only if the first result fits or holds nothing droppable. |
| `UserState.RebuildUserState` | backend/llm/service/context.py:245-266 | The loop over the lines of a block computes the specified shortening. |
| `UserState.UnchangedExactly` | backend/llm/service/context.py:251-264 | A block is unchanged exactly when every line but the first is blank or salient. |
| `UserState.RebuiltSettles` | backend/llm/service/context.py:265-266 | A shortened block is unchanged when shortened again. |
| `UserState.BudgetTwice` | backend/llm/service/context.py:245-333 | The exact condition for idempotence holds for the filter the code uses, with any scores. |
| `UserState.FactDropped` | backend/llm/service/context.py:248-266 | A header with one fact that is not salient is shortened to the header, and the header stays. |
| `UserState.BudgetTwiceDrops` | backend/llm/service/context.py:245-333 | With the code's own filter, for every such fact: the first application shortens the block to its header and the second drops it. |
| `ContextBudgetLaws.PartialDropNotIdempotent` | backend/llm/service/context.py:301-318 | For any filter that shortens a block once, a second application drops the block. |
| `Chunker.SplitSemantic` | backend/services/processor.py:209-236 | The units' words are the text's words in order, units are trimmed and no longer than the chunk size or the longest word, and paragraphs that fit stay whole. |
| `Chunker.SplitIsComplete` | backend/services/processor.py:212-219 | No piece that splitting leaves holds another paragraph or sentence separator. |
| `Chunker.SplitKeepsWords` | backend/services/processor.py:212-219 | Splitting at separators loses, reorders and splits no word. |
| `Chunker.PackWords` | backend/services/processor.py:226-235 | Packing a long sentence keeps its words and the bound, and no unit could have taken the next one's first word as well. |
| `Chunker.MergeWithOverlap` | backend/services/processor.py:239-263 | Chunks consume the units in consecutive non-empty slices, each after the tail of its predecessor, take as many as fit, and stay within one tail and one unit. |
| `Chunker.OverlapTailFacts` | backend/services/processor.py:250-254 | A tail is trimmed, within the overlap and never empty, so the running length is exact. |
| `Chunker.TailIsPiece` | backend/services/processor.py:250-252 | What is repeated is a contiguous piece of the last `overlap` characters. |
| `Chunker.TailFromPhrase` | backend/services/processor.py:250-252 | It starts at the first place in the last `overlap` characters that follows the end of a sentence or line and has text after it, if there is one, and at their beginning otherwise. |
| `Chunker.ChunkText` | backend/services/processor.py:266-269 | All of the above for a whole text; chunks are at most 201 characters longer than the chunk size or the longest word, so with no word over 1799 characters the embedder's cut drops nothing; no chunks exactly for blank text. |
| `Chunker.ChunkWords` | backend/services/processor.py:239-263 | A chunk's words are those of the repeated tail and then its own, which continue the text where the previous chunk stopped. |
| `Chunker.LongWordCut` | backend/llm/embeddings.py:31-31 | A word over 2000 characters always makes a chunk that is cut. |
| `Chunker.AlwaysWholeExactly` | backend/services/processor.py:209-269 | The embedder's cut never drops text if and only if no word may exceed 1799 characters. |
| `Chunker.Word1800Cut` | backend/services/processor.py:209-269 | A word of 1600 characters followed by one of 1800 is cut by every chunking the text can get. |
| `CircuitBreaker.Breaker.IsOpen` | backend/llm/circuit_breaker.py:22-30 | With a clock that never runs back, true exactly when the latest trip has no later success and is at most 90 s old; an open model has an open time. |
| `CircuitBreaker.Breaker.RecordFailure` | backend/llm/circuit_breaker.py:33-37 | Counts, and opens at five since the last reset, in step with the history. |
| `CircuitBreaker.Breaker.RecordSuccess` | backend/llm/circuit_breaker.py:55-57 | Clears the count and the open mark of that model only. |
| `CircuitBreaker.Breaker.RestoreOpen` | backend/llm/circuit_breaker.py:75-78 | A restored model is open from now on and keeps its count. |
| `CircuitBreaker.StandingIsLatest` | backend/llm/circuit_breaker.py:22-30 | Clearing expired trips on the way does not change any later answer. |
| `Failover.Request` | backend/llm/nim.py:47-323 | With any steps of other calls between its attempts: an open breaker contacts no endpoint; otherwise attempts go on exactly while they can be retried and any are left, and the breaker hears of them exactly as specified. |
| `Failover.TryCall` | backend/llm/nim.py:57-163 | One attempt of a plain call, in outcomes: the failure count of the model before and after, those of the others untouched, whether to retry, the reply, and whether the primary is marked. |
| `Failover.TryStream` | backend/llm/nim.py:190-323 | The same for a stream, which counts a failure only when it gives up on NIM. |
| `Failover.Isolation` | backend/llm/nim.py:76-85 | Over any interleaving of calls, the breaker's log is the same with all of the primary's faults left out. |
| `Failover.PrimaryOutageOpensNothing` | backend/llm/nim.py:144-157 | If attempts fail only through the primary's fault, no model's count grows and no breaker opens. |
| `Failover.PrimaryBlamedExactly` | backend/llm/nim.py:115-161 | At the primary, exactly a 200 with nothing usable in it, and an unexpected exception in a plain call, counts against the model. |
| `Failover.NimBlamedExactly` | backend/llm/nim.py:71-161 | At NIM a plain call counts exactly an unusable answer, a status of 500 or above, a connection error and any other exception; a stream exactly a connection error on its last attempt and a refusal on its last attempt or with another status than 429 and 503. |
| `Failover.FifthCountedOpens` | backend/llm/nim.py:57-323 | The fifth counted failure of a model without a success between them opens its breaker for exactly 90 seconds, whatever other models' calls do meanwhile. |
| `Failover.NimFailuresOpen` | backend/llm/nim.py:86-88 | Five plain attempts at NIM that end with a status of 500 or above or a connection error do so. |
| `Failover.FailuresAreCounted` | backend/llm/nim.py:57-323 | Over any interleaving the breaker hears one failure for each counted attempt and no other. |
| `Failover.UnusableAnswersOpen` | backend/llm/nim.py:115-161 | So do five unusable answers of the primary, for NIM as well. |
| `Failover.FailuresHaveCause` | backend/llm/nim.py:57-163 | Every counted failure comes from an attempt of that model that was neither useful nor a primary fault. |
| `EndpointHealth.MarkedMeansNim` | backend/llm/endpoint.py:45-121 | After the mark, with no pick past the cache's answer on its way to the primary, every URL picked before the TTL lapses is NIM, over every interleaving of the picks' awaits. |
| `EndpointHealth.MarkHoldsExactly` | backend/llm/endpoint.py:45-121 | That holds of all runs if and only if at the mark no pick has been answered with a healthy verdict or with none, is probing, or is storing or returning a healthy outcome. |
| `EndpointHealth.OffMeansNim` | backend/llm/endpoint.py:97-98 | With failover off every pick is NIM. |
| `EndpointHealth.CachedPick` | backend/llm/endpoint.py:100-107 | A pick with a verdict that has not lapsed follows it, probes nothing and changes nothing. |
| `EndpointHealth.ProbedPick` | backend/llm/endpoint.py:100-107 | A pick without one must probe; it returns the primary exactly if the probe found it healthy, and what it found is the verdict for the TTL, at least one second. |
| `ToolCalls.Reassemble` | backend/llm/nim.py:229-301 | Each list sent assembles everything received up to its finish chunk, ordered by index, with names and arguments concatenated in arrival order and the last non-empty id. |
| `ToolCalls.AddFragment` | backend/llm/nim.py:277-287 | A fragment extends its own entry and no other. |
| `ToolCalls.EmitCalls` | backend/llm/nim.py:289-301 | The list is in ascending order of index and complete. |
| `ToolCalls.InterleavingIndependent` | backend/llm/nim.py:229-301 | Two streams with the same fragments per index give the same list however they interleave. |
| `LeaseLock.AtMostOneLease` | backend/core/locks.py:25-44 | At every point of every run, with lost replies and failed releases, at most one task holds an unexpired lease. |
| `LeaseLock.ReleaseIsOwn` | backend/core/locks.py:16-42 | A release, however late and whether or not its script runs, leaves another task's lock in place. |
| `LeaseLock.NoGrantDuringLease` | backend/core/locks.py:29-31 | While a lease runs no request is granted and none touches the key. |
| `LeaseLock.GrantedExactly` | backend/core/locks.py:29-31 | A request is granted exactly when the key is absent or its time is up, and nothing changes otherwise. |
| `LeaseLock.ReleaseFrees` | backend/core/locks.py:16-42 | In every run a release before the lease has run out frees the key, and the next request is granted. |
| `LeaseLock.ExclusionExactly` | backend/core/locks.py:46-65 | Critical sections of at most d seconds exclude each other on all runs if and only if d is below the lease. |
| `LeaseLock.OverrunIsNotExclusive` | backend/core/locks.py:59-65 | From the lease on, there is a run with two tasks inside at once. |
| `LeaseLock.Acquire` | backend/core/locks.py:25-35 | The first granted request wins; refusal comes only after the whole wait; the answer is at most one back-off of 0.5 s late. |
| `SlidingWindow.WindowBound` | backend/rate_limiter/rate_limiter.py:253-275 | With one clock and distinct times, no half-open interval of one window holds more admitted requests than the limit. |
| `SlidingWindow.InstantBound` | backend/rate_limiter/rate_limiter.py:120-202 | With one clock, admitted requests of any window stand at no more instants than the limit. |
| `SlidingWindow.SameInstantUnbounded` | backend/rate_limiter/rate_limiter.py:165-168 | Requests at one instant share a member of the set, so any number of them is admitted. |
| `SlidingWindow.WindowBoundExactly` | backend/rate_limiter/rate_limiter.py:120-202 | Over all runs with at most m requests per instant: every window stays within the limit if and only if m is at most one or the limit is zero. |
| `SlidingWindow.Limiter.Allow` | backend/rate_limiter/rate_limiter.py:157-190 | For any clocks, a request is admitted exactly when the set then holds at most `limit` times, and the set holds exactly the times no later request or expiry removed. |
| `SlidingWindow.StandingIsWindow` | backend/rate_limiter/rate_limiter.py:159-175 | With one clock the set holds exactly the times in the window that ends with the last request, rejected ones included: the key's expiry makes no difference. |
| `Availability.OnOffer` | backend/llm/catalog/cache.py:55-67 | A model is available exactly when it is switched on, was recorded live, is not delisted, and has since failed never, or once and transiently; then some earlier probe returned 200. |
| `Availability.LiveRow` | backend/llm/catalog/store.py:55-86 | A live row has a zero fail count and a last-live time. |
| `Availability.Catalog.Upsert` | backend/llm/catalog/store.py:55-86 | One scan result keeps every row in agreement with its model's history; the switch is seeded once and never overwritten. |
| `Availability.Catalog.RecordScan` | backend/llm/catalog/scanner.py:153-169 | The pass records one result per probe; a throttled probe keeps the status from before the pass and cannot invent a live model. |
| `Availability.RowScanned` | backend/llm/catalog/scanner.py:93-112 | After a pass a row has the status its model's last probe calls for: live after a 200, not found after a 404, gone after a 410, what it had before after a 429, timed out or an error otherwise. |
| `Availability.Catalog.MarkDelisted` | backend/llm/catalog/store.py:91-103 | Exactly the unseen rows become delisted, nothing else of them changes, and one delisting is recorded and counted for each that was not delisted before. |
| `Availability.Catalog.Switch` | backend/api/admin/models.py:89-119 | Enabling is refused exactly for models never live, disabling exactly for role models, and an unknown model is an error. |
| `FileHistory.StoredFile.Restore` | backend/services/file_service.py:140-154 | A restore brings back the text of a version and makes what it replaces the newest one; it returns the content even when writing it failed. |
| `FileHistory.StoredFile.UndoAndRedo` | backend/services/file_service.py:140-154 | Restoring the newest version and then restoring what that replaced gives the text back. |
| `FileHistory.StoredFile.Patch` | backend/services/file_service.py:108-137 | A patch replaces the first occurrence of its target and keeps everything else; without a target or when reading fails nothing changes and no version is taken. |
| `FileHistory.StoredFile.Write` | backend/services/file_service.py:47-66 | Versions are numbered from one; as long as nothing has gone wrong version i holds the text before mutation i, for every mutation; a snapshot that cannot be read is skipped; what a failing write or commit leaves on disk and in the history; a stranger changes nothing. |
| `FileHistory.StoredFile.Append` | backend/services/file_service.py:69-88 | The same for an append, with its separator. |
| `FileHistory.PatchReplacesOne` | backend/services/file_service.py:92-105 | On any text read from disk the three-stage replacement is one replacement of one occurrence of the first target that occurs. |
| `FileHistory.NormalizedCutExactly` | backend/services/file_service.py:96-100 | On any text, read or raw, the second stage cuts where the match stands exactly when no CR LF begins before the end of the match. |
| `FileHistory.ReadsBack` | backend/services/file_service.py:16-18 | Text written back reads as itself; bytes are what they read as exactly when they hold no carriage return. |
| `MemoryCache.Cache.Get` | backend/cache/memory.py:11-17 | A hit is the last write, read no later than its expiry time or written with an expiry of zero; a miss means never written, expired now or at an earlier read, or crowded out by 1000 others. |
| `MemoryCache.Cache.Set` | backend/cache/memory.py:20-26 | Both tables keep the same keys, at most 1000, in order of writing; only a key with at least 1000 distinct others written since is evicted. |
| `MemoryCache.OldestIsCrowded` | backend/cache/memory.py:24-26 | The evicted key is one after whose last write at least 1000 distinct other keys were written. |
| `RankFusion.RrfMerge` | backend/llm/retriever/fusion.py:49-82 | The result lists distinct ids, the smaller of top_k and the union's size, by falling score, and no omitted id scores above a returned one. |
| `RankFusion.Fuse` | backend/api/files/search.py:55-65 | The same of the file search, with its running scores. |
| `RankFusion.ScoreOfRanks` | backend/llm/retriever/fusion.py:58-67 | An id's score is 1 over 61 plus its last rank, added up over the lists that hold it. |
| `RankFusion.SameScoresExactly` | backend/llm/retriever/fusion.py:59-67 | The two implementations give all ids the same scores if and only if neither list repeats an id. |
| `RankFusion.AheadComesOutAhead` | backend/llm/retriever/fusion.py:68-70 | An id ahead of another in both lists is returned whenever the other is, before it. |

## Left out

- The weighted modes of rank fusion, the rounding of scores, and the entity cap of `extract_and_store`.
- HTTP, server-sent events, ORM sessions, the Cypher and Redis clients, metrics, logging, authentication and everything outside the modules above.
- CatalogSnapshot.CatalogFreshness: versions are assumed to be fresh, as random UUIDs are; `publish(entries=...)` and the paths without Redis are not modelled, and the 15-second guard is not used: every refresh may start at any time.
- Work before the fallback loop of `generate_stream` (routing, context building, intent): it either raises, hits the cache or yields a chain.
- The message lists sent to the model: pairing of tool calls with tool results, and survival of the user's question after trimming in mid-turn, are not claimed.
- `compress_tool_dumps`, the wording of notices and white-space stripping in the endpoint are arbitrary functions.
- ContextBudget.ApplyContextBudget: a message whose content is explicitly null is not modelled, and the rounding of `int(context_window * 0.1)` is that of exact arithmetic.
- The normal form and the tokens of an entity name are arbitrary functions, so lower-casing and Unicode are not modelled; each statement on the graph runs alone.
- TextWords.Words: white space is Unicode's; the regular expressions of the chunker are the functions that find paragraph and sentence gaps.
- Failover.Request: missing credentials and back-off times are not modelled.
- EndpointHealth.MarkedMeansNim: one reachable cache backend; switching between Redis and the local fallback is not modelled.
- ToolCalls.Reassemble: well-formed fragments; a malformed chunk that is skipped half-way is not modelled.
- LeaseLock.Acquire: Redis latency is ignored; the lock on PostgreSQL is not modelled.
- SlidingWindow.Limiter.Allow: failing open without Redis is not modelled.
- Availability.Catalog.Switch: the other fields of the edit and an explicit null for the switch are not modelled.
- FileHistory.StoredFile.Write: one mutation at a time.
