# A Dafny model of the Dutch-learning backend

The backend behind a Dutch-learning application: a knowledge search with an inverted index and a
result cache, a tutor that runs a tool-calling language model over turns which can pause for the
learner, admission control for requests and for the model provider, a spaced-repetition path, and a
repair loop for generated reading texts. The project models the algorithms and protocols inside it
and proves what they promise over all inputs, all runs and all interleavings.

| module | models | depends on |
|---|---|---|
| `SearchIndex`, `TopK`, `Bm25`, `Tokens` | BM25 statistics and scores, the inverted index, the bounded-heap search and what a ranking is | `Text` |
| `SearchCache`, `Lru` | the per-process index and answer cache: revisions, time to live, eviction, the copy in Redis, overlapping requests | the above |
| `AgentLoop` | the loop of model requests, tool calls, nudges, pauses and resumptions | `Text` |
| `TurnStore`, `TurnRuntime` | the two turn stores and their record format; starting, pausing, resuming, cancelling and ending turns; event numbers | |
| `TutorTurn` | the agent loop inside a segment of a turn: what the turn's status and text say about the run | `AgentLoop`, `TurnRuntime` |
| `RateLimit`, `Circuit`, `Timeline` | the two request limiters, the circuit breaker and the retrying client, and the counting argument they share | |
| `ContextGuard` | fitting a conversation into the context window | |
| `Mastery`, `Policy`, `Scheduler` | the mastery estimate, the next step and the map of a learning path, review intervals | |
| `Sentences` | sentence splitting and sentence repair | `Text` |
| `SynthesisJobs` | one memory synthesis per user | |

Code that updates state is modelled as classes and methods with loops (`InMemoryFixedWindowLimiter`,
`LLMCircuitBreaker`, `KnowledgeSearchCache`, the turn stores, the turn runtime, `MemoryTasks`, the
passes of `fit_messages`, the agent loop); each method is proved against a function of the old state,
and the properties of whole runs are lemmas about those functions. What happens between two
suspension points of an `async` function is one atomic step.

Amounts and instants are `real`. What the code takes from elsewhere is a parameter about which
nothing is assumed, unless a lemma says so: token counts and summaries (`Estimator`), the logarithm
(`PositiveAboveOne` where its sign matters), the characters of words and lower case (`Alphabet`), the
model and the tools (`Environment`), the provider (`Provider`), coverage analysis, clocks, and
Python's conversions of values of an unexpected type (`Python`).

## Findings

Where the code does less than one would like, the model keeps the code as it is and the lemmas give
the exact condition.

- `compute_mastery` does not weigh the answers: `zip(recent, weights)` binds the name `w` to the answer
  and `c` to the weight, so the sum counts correct answers and only its divisor knows the weights. The
  0.9 gate therefore also opens with one wrong answer among the last five, and the second answer of
  all, if wrong after a correct one, raises the estimate (`Mastery.GateMeansFewWrong`,
  `Mastery.MonotoneButForSecondAnswer`, `Mastery.FourOfFiveClearTheGate`,
  `Mastery.SecondWrongAnswerRaises`). The weighed mean that the names suggest has neither flaw, and
  `Mastery.AgreesWithWeighedExactly` and `Mastery.GateOpensEarlyExactly` say exactly where the two differ.
- `merge_sentence_repairs`: the merged text splits back into the merged sentences exactly when the
  last repair ends in a terminator or replaces the last sentence (`Sentences.MergedTextSplitsBack`,
  `Sentences.UnterminatedGluesWithNext`).
- `fit_messages` can lose the newest message: it is skipped when it does not fit beside the system
  messages, and because `used` is not lowered during eviction, making room for the summary can evict
  it with everything else. `ContextGuard.NewestSurvives` gives the exact condition under which it
  stays, `ContextGuard.NewestMessageCanBeLost` an input that loses it.
- The Redis limiter lets through up to `2 * limit - 1` requests in one window length, never more, and
  for every limit and window some run reaches that; so it keeps the limit in every such interval
  exactly when the limit is one (`RateLimit.FixedWindowInAnyInterval`,
  `RateLimit.IntervalBoundIsReached`, `RateLimit.FixedWindowIsSlidingOnlyForOne`). The in-memory
  limiter, despite its name, is an exact sliding window.
- The in-memory limiter reads the first element of an empty deque exactly when the limit is not
  positive (`RateLimit.FailsExactlyWithoutLimit`); its one caller asks for a positive limit first
  (backend/app/main.py:182).
- A session can get two running turns only through a step that writes a turn while another turn of
  its session is running - resuming a paused turn, cancelling one, or the end of a background job
  that is no longer the session's - or releases a session whose turn is running
  (`TurnRuntime.StepKeepsExclusion`, `TurnRuntime.DisturbedWritesBreakExclusion`,
  `TurnRuntime.DisturbedStateIsReached`).
- A model that streams is asked with its tools only until its first batch of calls: from then on, and in
  every run that is resumed after a pause, it streams without tools, so it calls tools at most once in a
  run and never after a reply (`AgentLoop.StreamsAfterBatch`, `AgentLoop.StreamingCallsToolsOnce`).
- A run of the agent loop that fails is reported by an error event and then ends like any other, so its
  turn is saved as completed (`TutorTurn.FailedRunIsCompleted`).
- The delay that the in-memory limiter advertises is cut to whole seconds: it is not enough exactly when
  the delay needed is more than a second and not a whole number (`RateLimit.RetryAfterIsTight`).
- The displayed mastery of a concept or design can reach its threshold although nobody judged it as
  passed, exactly when its level is full (`Policy.DisplayReachesThreshold`).
- A cancellation that another worker stores after the last event of a segment is never polled for: the
  closing save overwrites it with "completed", or with "paused", and then the cancelled turn can be
  resumed (`TurnRuntime.CancellationIsHonouredByEvents`, `TurnRuntime.LateCancellationIsOverwritten`).
- The reader of stored turn records replaces an empty status, capability or language by a default, so
  exactly the records without such an empty field survive the round trip (`TurnStore.RoundTrip`).
- Tokenizing the normalized query returns the tokens of the query exactly when lower-casing keeps
  every word a word; it does not for the capital I with a dot (`Tokens.TokenizeNormalForm`,
  `Tokens.DottedCapitalIFails`).
- A finishing synthesis task can remove the `_scheduled_tasks` entry of its successor; only the lock
  keeps a third one out, and an expired lock does not (`SynthesisJobs.ClearedSuccessorIsStillExcluded`,
  `SynthesisJobs.ExpiredLockBreaksExclusion`).

## Model

| member | source | states |
|---|---|---|
| SearchIndex.Search | backend/app/modules/knowledge/search_cache.py:57-104 | for a well-built index the heap search returns a ranking of all chunks: only positive scores, best first, none twice, and nothing left out scores higher than anything returned; as many hits as asked for, at least one and at most 20, or all chunks with a positive score |
| TopK.FullScanIsRanked | backend/app/modules/knowledge/search_cache.py:69-88 | the independent reference - score every chunk, sort, cut - is such a ranking too |
| TopK.RankingIsDetermined | backend/app/modules/knowledge/search_cache.py:83-88 | any two rankings have the same length and the same score at every place, so index search and full scan differ at most among equal scores |
| SearchIndex.BuildIndex | backend/app/modules/knowledge/search_cache.py:274-288 | the posting list of every term is the ascending list of positions of the chunks containing it; the document count falls back to the number of rows, so only a base without rows is searched as empty, and recomputed statistics are used as they are |
| SearchIndex.PostingsMatchDocFreq | backend/app/modules/knowledge/search_cache.py:274-288 | with fresh statistics, posting list length, document frequency and actual containment agree for every term |
| SearchIndex.RevisionTells | backend/app/modules/knowledge/search_cache.py:107-110 | the revision, as text, is the same if and only if the document count and the time stamp are |
| SearchIndex.Candidates | backend/app/modules/knowledge/search_cache.py:62-67 | the candidates are exactly the chunks that contain a query term |
| SearchIndex.BestEntries | backend/app/modules/knowledge/search_cache.py:69-86 | the heap ends up with the `limit` highest positive entries of the candidates, whatever the order they are visited in |
| SearchIndex.Offer | backend/app/modules/knowledge/search_cache.py:83-86 | pushing below the limit, else exchanging the least entry for a strictly better one, keeps the heap the best of all entries seen |
| SearchIndex.RankEntries | backend/app/modules/knowledge/search_cache.py:88-103 | the result lists exactly the heap's chunks, best first, each once |
| Bm25.NoTermNoScore | backend/app/modules/knowledge/bm25.py:33-43 | a chunk without any query term scores zero, so looking only at candidates loses nothing |
| Bm25.PositiveExactlyOnAMatch | backend/app/modules/knowledge/bm25.py:30-43 | if no term is in more documents than there are, a chunk scores above zero exactly when it contains a query term, and never below |
| Bm25.FreshStatsScoreEveryMatch | backend/app/modules/knowledge/service.py:254-275 | recomputed statistics meet that condition, so with them no matching chunk is lost |
| Bm25.WeightIsShare | backend/app/modules/knowledge/bm25.py:37-42 | with k1 = 1.2 and b = 0.75 the weight of a term is its idf times `2.2 tf / (tf + 0.3 + 0.9 r)`, where r is the length of the chunk in average lengths |
| Bm25.AverageChunkWeighsIdf | backend/app/modules/knowledge/bm25.py:37-42 | one occurrence in a chunk of average length weighs exactly the idf |
| Bm25.DenserWeighsMore | backend/app/modules/knowledge/bm25.py:37-42 | a term weighs more the more often it occurs and the shorter the chunk is, always less than 2.2 times its idf |
| Bm25.RarerWeighsMore | backend/app/modules/knowledge/bm25.py:39-40 | the fewer documents contain a term, the more it weighs |
| Bm25.ScoreAddsUp | backend/app/modules/knowledge/bm25.py:33-43 | the score for a query is the sum of the scores for its parts |
| Bm25.DenserScoresHigher | backend/app/modules/knowledge/bm25.py:30-43 | a chunk that is no longer and contains every query term at least as often scores at least as high, and higher if one occurs more often |
| Bm25.LengthsAddUp | backend/app/modules/knowledge/service.py:262-266 | every chunk counts with its own length in the mean |
| Bm25.RecomputeStats | backend/app/modules/knowledge/service.py:254-275 | the statistics count every document, every term's documents and the mean length; the empty base gets zeros and no time stamp |
| Bm25.Bm25Score | backend/app/modules/knowledge/bm25.py:19-43 | the accumulating loop computes the sum of the term weights, zero for an empty chunk or an empty base |
| Tokens.TokenizeNormalForm | backend/app/modules/knowledge/bm25.py:7-11 | joining the tokens and tokenizing again gives the tokens back exactly when every lowered word is still a word |
| Tokens.WordsMissNothing | backend/app/modules/knowledge/bm25.py:7-11 | the words of a text, one after the other, are exactly its word characters in order |
| Tokens.WordsAreMaximalRuns | backend/app/modules/knowledge/bm25.py:7-11 | wherever a run of word characters has no word character beside it, it is one word |
| Tokens.DottedCapitalIFails | backend/app/modules/knowledge/bm25.py:7-11 | an alphabet that meets the assumptions about lower case, and a query whose token is lost on the way: the capital I with a dot |
| SearchCache.Serve | backend/app/modules/knowledge/search_cache.py:231-351 | in every interleaving of requests (section by section, from one suspension point to the next), invalidations, Redis losses and gains, and clock values: only requests are answered, each with a ranking for its own normalized query of the content of the revision it found, and every request that goes on for five sections has its answer |
| SearchCache.AnswerIsForTheRequest | backend/app/modules/knowledge/search_cache.py:320-351 | said without keys, revisions and caches: whatever happened in between, a request gets, of the rows it found, as many as it asked for (between 1 and 20, or all that match), ranked by their scores for its own query - when its lowered words are words |
| SearchCache.RightIsDeserved | backend/app/modules/knowledge/search_cache.py:328-351 | the same for the answer of an uninterrupted request |
| SearchCache.Proceed | backend/app/modules/knowledge/search_cache.py:332-351 | each section of a request gives its right answer or keeps its key and comes closer to it: build, look, ask Redis, store, send to Redis |
| SearchCache.KnowledgeSearchCache.SearchIndexed | backend/app/modules/knowledge/search_cache.py:320-351 | an uninterrupted request answers with a right ranking whether from the cache, from Redis or from the index; its key becomes the most recent, and a change of revision first drops the base's answers |
| SearchCache.KnowledgeSearchCache.LoadIndex | backend/app/modules/knowledge/search_cache.py:257-290 | returns an index faithful to the current revision, the loaded one if it has that revision, else a new one after dropping the base's answers |
| SearchCache.KnowledgeSearchCache.GetCachedSearch | backend/app/modules/knowledge/search_cache.py:292-304 | a hit exactly if stored no longer ago than the time to live, and it becomes most recent; an expired entry is removed, nothing else changes; the order stays that of the cache's history |
| SearchCache.KnowledgeSearchCache.SetCachedSearch | backend/app/modules/knowledge/search_cache.py:306-318 | storing is one use in a cache of `max_entries`: the least recently used entries go, all kept answers stay right |
| SearchCache.KnowledgeSearchCache.InvalidateKb | backend/app/modules/knowledge/search_cache.py:247-251 | drops the index and the answers of one base, in place, and nothing else |
| SearchCache.NormalizedQueryIsTheQuery | backend/app/modules/knowledge/search_cache.py:328-333 | an answer cached for the normalized query is a right answer for the query itself |
| Lru.HeldExactlyIfFewNewer | backend/app/modules/knowledge/search_cache.py:247-318 | over any history of uses, expiries and invalidations, a key is held if and only if it was used, never dropped since, and at no time since had `max_entries` keys been used after it and not dropped |
| Lru.CacheIsRecent | backend/app/modules/knowledge/search_cache.py:247-318 | over any such history the cache is the most recent part, of at most `max_entries`, of all keys not dropped, in order of last use |
| Lru.CacheIsRecency | backend/app/modules/knowledge/search_cache.py:303-318 | as long as nothing is dropped, evicting one by one leaves exactly the `max_entries` most recently used keys, in order of use |
| Lru.UseAfterForgetting | backend/app/modules/knowledge/search_cache.py:315-318 | forgetting old keys before or after a use gives the same cache |
| AgentLoop.Run | backend/app/modules/agent/loop/runner.py:70-192 | whatever the model and the tools do: every request has every earlier call answered once, in order, with its id and name; what became of every reply - a reply with calls becomes the next batch, an answer that is too early is met with the nudge, a blank stream is passed over, and any other answer, streamed or not as the request demands, ends the run as its final text; a run that does not pause completes; what was shown, stripped, is the final text, which is the model's or - only when all iterations are used up - the fallback; at most `max_iterations` requests, at most one nudge, which was due, and no ungrounded non-streamed answer without it |
| AgentLoop.Iterate | backend/app/modules/agent/loop/runner.py:91-174 | one request: streamed without tools exactly if the model streams and there are no tools or the request ends in an answer of a tool, else asked with its tools; calls become the next batch, a text the final text or the occasion of the nudge |
| AgentLoop.StreamsAfterBatch | backend/app/modules/agent/loop/runner.py:93-96 | in terms of what the run has done: with tools a streaming model streams exactly after a batch, or at once when the messages at the start end in an answer of a tool |
| AgentLoop.StreamingCallsToolsOnce | backend/app/modules/agent/loop/runner.py:93-105 | a streaming model calls tools at most once in a run, in its last block, and not at all in a run resumed after a pause |
| AgentLoop.Converse | backend/app/modules/tutor/turn_runtime.py:169-200 | over any number of pauses and replies: in every request the tool messages answer a prefix of each batch in order with matching id and name; if the tools pause only at the last call of a batch, every call is answered once before the model is asked again |
| AgentLoop.PausesAtLastCall | backend/app/modules/agent/loop/runner.py:255-288 | if the tools pause only at last calls, a run that pauses has answered every other call of its batch |
| AgentLoop.ReplyAnswersPendingCall | backend/app/modules/tutor/turn_runtime.py:169-180 | the user's reply is the next answer of the paused batch exactly when the pending call's id and name are not empty, and completes the batch exactly when that call was its last |
| AgentLoop.ExecuteToolCalls | backend/app/modules/agent/loop/runner.py:218-288 | appends the answers up to the first result that asks the user, reports that call, and has run every call |
| AgentLoop.AnswersAre | backend/app/modules/agent/loop/runner.py:194-288 | each appended answer is what its tool returned for that call, or that the tool is unknown, with the id and name of the call; the call that pauses is one of a known tool whose result asks the user |
| AgentLoop.TextTurn | backend/app/modules/agent/loop/runner.py:148-174 | an answer without calls ends the run exactly unless the one grounding nudge is due |
| AgentLoop.StreamedTurn | backend/app/modules/agent/loop/runner.py:105-124 | the text of a streamed answer is its chunks, joined and stripped; it ends the run exactly if it is not blank, and a blank one shows nothing but white space |
| AgentLoop.StepLimit | backend/app/modules/agent/loop/runner.py:176-192 | after the last iteration the stale answer, or the fallback if there is none, is shown and is the final text |
| TurnStore.TracesAgree | backend/app/modules/tutor/turn_state_store.py:127-238 | any sequence of operations with non-empty turn ids and storable records gets the same answers from the in-memory and the Redis store |
| TurnStore.StepsAgree | backend/app/modules/tutor/turn_state_store.py:132-238 | one operation: equal answers, and the stores again hold the same turns and sessions |
| TurnStore.RoundTrip | backend/app/modules/tutor/turn_state_store.py:65-104 | reading a written record gives it back with "running", "chat" and "en" for an empty status, capability and language (and the last two in its paused state) - so unchanged if and only if none of them is empty |
| TurnStore.PausedRoundTrip | backend/app/modules/tutor/turn_state_store.py:30-47 | the same for a paused state, which is always readable |
| TurnStore.InMemoryTurnStateStore.AcquireSession | backend/app/modules/tutor/turn_state_store.py:132-140 | refuses exactly when another, running turn holds the session, else maps the session to the turn |
| TurnStore.InMemoryTurnStateStore.DeleteTurn | backend/app/modules/tutor/turn_state_store.py:156-159 | removes the turn, and its session's entry only if that names it |
| TurnStore.RedisTurnStateStore.AcquireSession | backend/app/modules/tutor/turn_state_store.py:172-199 | the conditional-set protocol, with no key expiring, decides by the same rule and leaves the same mapping as the specification of the Redis store says; it calls itself without end exactly if the session key holds an empty id |
| TurnStore.RedisTurnStateStore.SaveTurn | backend/app/modules/tutor/turn_state_store.py:207-218 | writes the printed record under the turn's key and the turn's id under the session's key, and nothing else |
| TurnStore.KeysAreSeparate | backend/app/modules/tutor/turn_state_store.py:166-170 | turn keys and session keys never collide, and different ids have different keys |
| TurnStore.RedisTurnStateStore.DeleteTurn | backend/app/modules/tutor/turn_state_store.py:234-238 | removes the turn and, if the record was readable, releases its session |
| TurnRuntime.SessionExclusion | backend/app/modules/tutor/turn_runtime.py:62-383 | in every orderly run of starts, resumptions, cancellations, endings and later releases, each a step of its own, a session never has two running turns, and every running turn is the one its session maps to |
| TurnRuntime.StepKeepsExclusion | backend/app/modules/tutor/turn_runtime.py:70-101 | a step keeps exclusion if and only if it is safe: every start and acquisition is; a release is unless its turn is running; any other step is if it writes nothing or no other turn of that session is running |
| TurnRuntime.SaveKeepsExclusion | backend/app/modules/tutor/turn_state_store.py:146-148 | saving a turn keeps exclusion if and only if no other turn of its session is running |
| TurnRuntime.ReleaseKeepsExclusion | backend/app/modules/tutor/turn_state_store.py:142-144 | releasing keeps it if and only if the released turn is not running in that session |
| TurnRuntime.LateReleaseIsHarmless | backend/app/modules/tutor/turn_state_store.py:142-144 | a release by a turn the session has moved on from changes nothing |
| TurnRuntime.AcquireAndDeleteKeepExclusion | backend/app/modules/tutor/turn_state_store.py:132-159 | acquiring and deleting keep exclusion in every case |
| TurnRuntime.UndisturbedIsCheckable | backend/app/modules/tutor/turn_runtime.py:53-60 | one look at the session's entry tells whether another turn of it is running |
| TurnRuntime.EndOfRunningTurnIsOrderly | backend/app/modules/tutor/turn_runtime.py:289-312 | the end of a turn that is running is always an orderly step |
| TurnRuntime.DisturbedWritesBreakExclusion | backend/app/modules/tutor/turn_runtime.py:122-223 | resuming a paused turn while a newer one runs gives two running turns, and cancelling it lets a third one start beside the newer one |
| TurnRuntime.DisturbedStateIsReached | backend/app/modules/tutor/turn_runtime.py:62-120 | three safe steps from the empty store - start, pause, start - reach such a state |
| TurnRuntime.CancellationIsHonouredByEvents | backend/app/modules/tutor/turn_runtime.py:245-256 | a segment ends by a cancellation in the store if and only if some event arrives after it, before any failure |
| TurnRuntime.CancelStopsSegment | backend/app/modules/tutor/turn_runtime.py:205-256 | a turn cancelled before its j-th event arrives handles at most j events |
| TurnRuntime.FailureEndsSegment | backend/app/modules/tutor/turn_runtime.py:245-383 | a failure ends a segment if and only if it comes before the events are used up and no earlier event found the turn cancelled |
| TurnRuntime.LateCancellationIsOverwritten | backend/app/modules/tutor/turn_runtime.py:289-312 | a cancellation stored after the last event is overwritten, and if the segment asked the user the turn can be resumed |
| TurnRuntime.TutorTurnRuntime.StartTurn | backend/app/modules/tutor/turn_runtime.py:70-101 | answers busy exactly when a running turn holds the session, else acquires and saves |
| TurnRuntime.TutorTurnRuntime.SubmitUserReply | backend/app/modules/tutor/turn_runtime.py:122-203 | resumes exactly the owner's paused turn that has no unfinished task, marking it running and handing on its record without the paused state |
| TurnRuntime.TutorTurnRuntime.CancelTurn | backend/app/modules/tutor/turn_runtime.py:205-223 | only the owner cancels; the turn is saved as cancelled, an unfinished job is awaited while others change the store, and then the session is released |
| TurnRuntime.TutorTurnRuntime.ExecuteTurn | backend/app/modules/tutor/turn_runtime.py:229-383 | whatever others do to the store at each suspension: a segment ends by the first of a failure, a cancellation it finds in the store, and the last event; it numbers what it handles without a gap, sends all of it but an event that fails in sending, persists all of it unless it found the cancellation; it is saved as cancelled when it found the cancellation, with the status of the failure after one, else as paused if it asked the user and as completed if not - never as running; unless paused it releases the session after another suspension, which is a safe step if others leave the turn alone; and if they keep exclusion, so does the segment |
| TurnRuntime.SegmentEndsSafely | backend/app/modules/tutor/turn_runtime.py:289-383 | the save and the release that end a segment of a running turn both keep exclusion |
| TurnRuntime.TutorTurnRuntime.HandleEvents | backend/app/modules/tutor/turn_runtime.py:245-287 | the event loop, polling the store before every event: which events are numbered, which reach the client, what text the learner saw, and the store it leaves |
| TurnRuntime.QuietEnding | backend/app/modules/tutor/turn_runtime.py:225-256 | without a failure, and if others leave the turn alone, a segment ends by itself |
| TurnRuntime.TutorTurnRuntime.PlayTurn | backend/app/modules/tutor/turn_runtime.py:258-292 | over any number of pause and resume segments and a last one that ends in any way, the numbers of what is sent and what is persisted go on where the stored record stopped |
| TurnRuntime.NumbersHaveNoGap | backend/app/modules/tutor/turn_runtime.py:258-272 | the numbers of a new turn are exactly 1, 2, 3, ... over all its segments |
| TurnRuntime.FragmentsAreSlices | backend/app/modules/tutor/turn_runtime.py:262-308 | each persisted fragment is the contiguous slice of its segment |
| TutorTurn.RunSegment | backend/app/modules/tutor/turn_runtime.py:229-308 | a segment from its messages to its record, undisturbed: the turn ends paused or completed as the run of the agent loop did, and the persisted reply, stripped, is the final text of the run |
| TutorTurn.StatusTellsOutcome | backend/app/modules/tutor/turn_runtime.py:258-312 | the same for any events of other kinds in between: paused exactly if the run paused, else completed with its final text |
| TutorTurn.FailedRunIsCompleted | backend/app/modules/agent/runtime/orchestrator.py:53-66 | a run that fails, in a request, among its tools or in the middle of a stream, leaves its turn completed, with the text shown so far |
| RateLimit.NeverOverLimit | backend/app/core/rate_limit.py:13-23 | at every instant t, in every run, at most `limit` requests of a key were admitted in (t - window, t] |
| RateLimit.DecidesBySlidingWindow | backend/app/core/rate_limit.py:13-23 | the pruned deque decides like recounting the whole history: admitted exactly below `limit` recent admissions, refused exactly at `limit` |
| RateLimit.RetryAfterIsTight | backend/app/core/rate_limit.py:19-21 | after a refusal the key is admissible from one instant on; the advertised delay is at least a second, less than a second from what is needed on either side, and too short if and only if that is more than a second and not a whole number |
| RateLimit.KeysAreIndependent | backend/app/core/rate_limit.py:11-23 | in any mixed run the deque of a key depends only on that key's calls |
| RateLimit.InMemoryFixedWindowLimiter.Allow | backend/app/core/rate_limit.py:13-23 | the popping loop removes exactly the stale front of the key's deque, and no other key changes |
| RateLimit.RedisFixedWindowLimiter.Allow | backend/app/core/rate_limit.py:31-41 | one atomic increment decides; a refusal advertises at least one second |
| RateLimit.FixedWindowPerLifetime | backend/app/core/rate_limit.py:31-41 | at most `limit` admissions in each lifetime of a key |
| RateLimit.FixedWindowInAnyInterval | backend/app/core/rate_limit.py:31-41 | at most `2 * limit - 1` admissions in any half-open interval of the window's length |
| RateLimit.IntervalBoundIsReached | backend/app/core/rate_limit.py:31-41 | for every positive limit and window there is an ordered run that reaches that bound |
| RateLimit.FixedWindowIsSlidingOnlyForOne | backend/app/core/rate_limit.py:31-41 | the limit holds in every interval of every run if and only if it is one |
| RateLimit.FailsExactlyWithoutLimit | backend/app/core/rate_limit.py:19-20 | after any history the exception is raised if and only if the limit is not positive |
| RateLimit.CountersAreIndependent | backend/app/core/rate_limit.py:31-37 | in any mixed run the counter of a key depends only on that key's calls |
| Circuit.CircuitBound | backend/app/modules/llm/circuit_breaker.py:19-37 | sequential calls to a failing provider are admitted at most three times in any 30 seconds and make at most `3 * max_attempts` attempts, from any sound breaker state |
| Circuit.RefusalMeansRecentlyTripped | backend/app/modules/llm/circuit_breaker.py:19-37 | in any interleaving of calls, a call is refused if and only if the third failure since the last reset lies less than 30 seconds back with no reset since |
| Circuit.RefusedOnlyAfterThreeFailures | backend/app/modules/llm/retry.py:46-55 | in a run of sequential calls from a new breaker, a call is refused only if the last three admitted calls all failed, and the last of them ended less than 30 seconds ago |
| Circuit.RunIsHistory | backend/app/modules/llm/retry.py:46-55 | the breaker after a run of calls is the breaker after the history in which each admitted call asks and then succeeds or fails |
| Circuit.RetryLLMClient.WithRetry | backend/app/modules/llm/retry.py:84-101 | makes attempts up to the first that is not a retryable failure, at most the maximum, and returns its outcome |
| Circuit.RetryLLMClient.Chat | backend/app/modules/llm/retry.py:46-55 | makes no attempt and changes nothing when refused; when admitted, the breaker is told of one success or failure, and a success closes and clears it |
| ContextGuard.FitsBudget | backend/app/modules/llm/context_guard.py:58-110 | with a positive window the tokens of the result, and four more per message, are at most the window less the reserve, or 256 if that is more - although `used` is only an upper bound after evictions |
| ContextGuard.UnchangedExactlyIfItFits | backend/app/modules/llm/context_guard.py:58-64 | the result is the input if and only if there is no window or the input fits |
| ContextGuard.FittingKeepsWhatFits | backend/app/modules/llm/context_guard.py:66-100 | an input that does not fit becomes the longest prefix of the system messages that fits, then the summary, then the kept messages: of the others, from the newest back, each is kept if and only if it fits beside what is kept of the later ones, and then as few of the oldest go as make room for the summary of everything dropped, which is there if something is dropped and it fits |
| ContextGuard.FilterPicks | backend/app/modules/llm/context_guard.py:66-67 | the system messages and the others are the messages with and without that role, each in the order of the input |
| ContextGuard.FittingIsIdempotent | backend/app/modules/llm/context_guard.py:51-110 | fitting a fitted conversation changes nothing |
| ContextGuard.TruncationKeepsOrder | backend/app/modules/llm/context_guard.py:66-99 | kept system messages are a prefix, other kept messages an order-preserving selection, kept and dropped together are the input, and the at most one summary is of exactly the dropped messages |
| ContextGuard.NewestSurvives | backend/app/modules/llm/context_guard.py:51-110 | the newest message that is not a system message is in the result if and only if nothing is truncated, or it fits beside the system messages and the summary, if there is one, fits before everything is evicted |
| ContextGuard.TruncationKeepsNewest | backend/app/modules/llm/context_guard.py:66-99 | the same for a truncation, also by position: the last place of the input is among the kept ones |
| ContextGuard.EvictsEverything | backend/app/modules/llm/context_guard.py:91-94 | the eviction loop ends with nothing kept if and only if no summary on the way fits beside what was kept at first |
| ContextGuard.NewestMessageCanBeLost | backend/app/modules/llm/context_guard.py:80-99 | in every window, a newest message that fits on its own is lost if it does not fit together with an older one and no summary fits beside it |
| ContextGuard.Fitting | backend/app/modules/llm/context_guard.py:51-110 | the three loops compute the greedy selection, the eviction and the result that those lemmas are about |
| ContextGuard.KeepNewest | backend/app/modules/llm/context_guard.py:78-86 | the backward loop keeps whatever still fits and skips the rest |
| Mastery.GateMeansFewWrong | backend/app/modules/learning/mastery/mastery.py:7-15 | the estimate reaches 0.9 if and only if there are at least three answers and none of the recent ones is wrong - or at most one, once there are five; it lies between 0 and 1 |
| Mastery.MonotoneButForSecondAnswer | backend/app/modules/learning/mastery/mastery.py:7-15 | a correct answer never lowers the estimate; a wrong one does not raise it, if and only if it does not follow a single correct answer |
| Mastery.MasteryIsCount | backend/app/modules/learning/mastery/mastery.py:3-15 | the estimate is the number of correct recent answers over the sum of their weights, capped for one and two answers |
| Mastery.FourOfFiveClearTheGate | backend/app/modules/learning/mastery/mastery.py:12-15 | four correct answers after a wrong one count as complete mastery |
| Mastery.SecondWrongAnswerRaises | backend/app/modules/learning/mastery/mastery.py:12-15 | a wrong answer after a single correct one raises the estimate from 0.5 to 1/1.95 |
| Mastery.AgreesWithWeighedExactly | backend/app/modules/learning/mastery/mastery.py:12-15 | the estimate is never below the mean of the answers weighed by the recency weights, and equals it if and only if all recent answers are correct, or none but possibly the last |
| Mastery.GateOpensEarlyExactly | backend/app/modules/learning/mastery/mastery.py:12-15 | with the weighed mean the gate means a streak of all recent answers; the code opens it when that would not, if and only if exactly one of the last five answers is wrong |
| Mastery.WeighedIsMonotone | backend/app/modules/learning/mastery/mastery.py:12-15 | with the weighed mean a correct answer never lowers the estimate and a wrong one never raises it |
| Policy.CompleteAgreesWithMap | backend/app/modules/learning/mastery/policy.py:107-222 | the policy says complete if and only if no question is pending, the most urgent due review names no known point, and the map counts every point as mastered |
| Policy.StepsFollowTheMap | backend/app/modules/learning/mastery/policy.py:150-179 | a probe, practice or assessment names an unmastered point with every point of lower-order modules and every earlier point of its module mastered |
| Policy.ReviewIsMostUrgent | backend/app/modules/learning/mastery/policy.py:129-148 | a proposed review is due, and no due review is more urgent |
| Policy.StepsByUrgency | backend/app/modules/learning/mastery/policy.py:107-148 | a pending question comes first, then the most urgent due review if it is of a known point, then new material; the fields of the first two steps |
| Policy.FoundExactly | backend/app/modules/learning/mastery/policy.py:94-101 | a point is found if and only if some module has one with that id, and then in a module that has it |
| Policy.SortedIsStable | backend/app/modules/learning/mastery/policy.py:55-56 | reviews of equal priority, and modules of equal order, stay in order |
| Policy.MasteredExactlyWithFewWrong | backend/app/modules/learning/mastery/policy.py:31-34 | a memory or procedure point whose level is the estimate of its answers is mastered if and only if there are three answers or more, and of the recent ones none is wrong - or at most one, once there are five |
| Policy.DisplayReachesThreshold | backend/app/modules/learning/mastery/policy.py:31-40 | the displayed mastery reaches the threshold if and only if the point is mastered, or is a concept or design with a full level |
| Policy.SearchFindsFirstOpen | backend/app/modules/learning/mastery/policy.py:150-181 | the nested search finds the first open point, or there is none |
| Policy.CountsAddUp | backend/app/modules/learning/mastery/policy.py:184-222 | every point is counted once, under its status, and the counts add up to the total |
| Policy.MapSummary | backend/app/modules/learning/mastery/policy.py:184-221 | the loops tally the points of all modules in order, and summarize each module by its own tally and each point by its id, name, type, status and displayed mastery |
| Policy.SummariesTell | backend/app/modules/learning/mastery/policy.py:187-214 | each line of the map has the data of its module and the number of its mastered points, each entry those of its point |
| Scheduler.CorrectStreak | backend/app/modules/learning/mastery/scheduler.py:44-65 | n correct answers from the start reach step min(top, floor(3n/2)) |
| Scheduler.StreakReachesLongest | backend/app/modules/learning/mastery/scheduler.py:13-18 | so many correct answers from the start reach the longest interval: four for 60 days, two for 30 or 14, one for 28 |
| Scheduler.CountersAreParities | backend/app/modules/learning/mastery/scheduler.py:44-65 | after any history each counter says whether the current row of correct, or of wrong, answers is odd |
| Scheduler.WrongStreak | backend/app/modules/learning/mastery/scheduler.py:57-63 | n wrong answers lose n steps, down to the bottom |
| Scheduler.RunsStayInRange | backend/app/modules/learning/mastery/scheduler.py:44-65 | after any answers, and for a table of any size, the index is in the table and both streak counters are 0 or 1 |
| Scheduler.BetterAnswersNeverReviewSooner | backend/app/modules/learning/mastery/scheduler.py:44-65 | if every correct answer of one history is also correct in another, the other's interval is at least as many days |
| Scheduler.BetterAnswersStayAhead | backend/app/modules/learning/mastery/scheduler.py:44-65 | and it is at least as far in the table, and below its end no further from the next skip |
| Scheduler.ScheduleNext | backend/app/modules/learning/mastery/scheduler.py:44-65 | updates the counters in place as the transition says, and the due time is now plus the interval of the new step |
| Scheduler.GetInitialState | backend/app/modules/learning/mastery/scheduler.py:35-42 | a new state at the first step, due after the first interval |
| Sentences.SplitNormalForm | backend/app/modules/reading/coverage_policy.py:39-40 | joining the sentences with blanks and splitting again gives the same sentences |
| Sentences.SplitLosesNothing | backend/app/modules/reading/coverage_policy.py:39-40 | the sentences have exactly the characters of the text that are not white space, in order |
| Sentences.SplitIsNormal | backend/app/modules/reading/coverage_policy.py:39-40 | every sentence is trimmed, not empty and uncut, and every one but the last ends in a terminator |
| Sentences.SurvivesExactlyWhenTerminated | backend/app/modules/reading/coverage_policy.py:39-40 | a list of sentences survives join and split if and only if every one but the last is terminated |
| Sentences.FailingSentences | backend/app/modules/reading/coverage_policy.py:43-56 | exactly the failing sentences, each once, in text order, with their coverage |
| Sentences.MergeSentenceRepairs | backend/app/modules/reading/coverage_policy.py:59-66 | a count mismatch changes nothing; otherwise the k-th repair stands at the k-th failing index (the last one for an index wins) and nothing else changed; an index beyond the text is the exception |
| Sentences.MergedTextSplitsBack | backend/app/modules/reading/coverage_policy.py:59-66 | the merged text splits back into the merged sentences if and only if the last repair fits |
| Sentences.UnterminatedGluesWithNext | backend/app/modules/reading/coverage_policy.py:59-66 | a repair without a terminator becomes one sentence with its successor |
| Sentences.RepairNeverBreaksAPassingSentence | backend/app/modules/reading/coverage_policy.py:43-66 | after a fitting repair only repaired indices can fail, and no more sentences fail than before |
| SynthesisJobs.SynthesisExclusion | backend/app/modules/memory/tasks.py:29-111 | in every interleaving of callers and tasks without an early expiry, at most one job per user is between acquire and release, and the lock is held exactly then |
| SynthesisJobs.StepKeepsExclusion | backend/app/core/redis_lock.py:11-35 | a step breaks that if and only if it is the expiry of a held lock |
| SynthesisJobs.ClearedSuccessorIsStillExcluded | backend/app/modules/memory/tasks.py:86-103 | there is a run in which a finishing task clears its successor's entry, a third caller sees nothing pending, and the lock refuses it |
| SynthesisJobs.ExpiredLockBreaksExclusion | backend/app/core/redis_lock.py:17-18 | an expired lock lets a second job in beside a working one |
| SynthesisJobs.MemoryTasks.EnqueueSynthesizeL3 | backend/app/modules/memory/tasks.py:91-111 | schedules a task exactly when none is pending and the lock is free, and then holds the lock |
| SynthesisJobs.MemoryTasks.TryToSynthesize | backend/app/modules/memory/tasks.py:35-60 | attempts up to the first success, at most three |
| SynthesisJobs.MemoryTasks.Finish | backend/app/modules/memory/tasks.py:86-88 | releases the lock and clears the entry, whosever they are, in this order |

## Left out

- HTTP and WebSocket routes, authentication, SQL, the model and translation clients, feeds, logging, metrics and the frontend: input, output and plumbing.
- The regular-expression engine, JSON printing and parsing as text, the logarithm, the tokenizer library and Redis itself: only the facts the code uses are modelled (records are printed to documents of fields; their numbers are integers and reals, without NaN and infinities).
- Rounding: scores, estimates, delays and instants are real numbers, so statements about ties and thresholds are about exact values; `round` in the map summary and in `to_dict` is left out.
- `KnowledgeService.search` (score floor, level and part-of-speech filters, cut), `_pick_diverse_words`, `update_word_progress`, `build_review_queue`, the attempt loop of `ReadingService.generate` and the lines of a conversation summary: filters, counters and selections around the modelled algorithms, about which nothing here is claimed.
- TOOL_START and TOOL_END events: with a parallel batch their order is arbitrary, and they are not part of what the learner reads.
- Exceptions from the model or a tool leave the agent loop without an outcome; how a failed run ends its turn is `TutorTurn.FailedRunIsCompleted`. A `Raised` ending is an exception of the runtime itself, from its store or the client, or the cancellation of its job. Capabilities other than the chat are not modelled. A tool that itself changes the conversation is not modelled.
- `RetryLLMClient.stream_chat`, back-off delays and calls of one provider that overlap in the bound `CircuitBound` (refusals are characterised for overlapping calls too).
- SearchCache.Serve: assumes that a revision determines the content of a knowledge base, as the cache itself does; two recomputations with the same document count and time stamp would share a revision.
- SearchCache.KnowledgeSearchCache.SearchIndexed: Redis keys hold 16 hexadecimal digits of a hash of the query; colliding queries are not modelled, and an answer survives serialization unchanged.
- TurnStore.TracesAgree: no key expires and each operation is atomic; with expiry, or with two acquisitions between an acquire and its save, the stores can differ.
- Aliasing: the in-memory store hands out the stored objects; the model stores values, because the runtime copies records when it loads and saves them.
- TurnRuntime.TutorTurnRuntime.ExecuteTurn: an exception after the outcome has been saved - while it is persisted or announced - is not one of the endings; the code then saves the turn once more, as an error. An event that asks the user carries a given paused state.
- TurnRuntime.SessionExclusion: whether a turn is busy, acquiring it and saving it are one step at the start, as with the in-memory store; with Redis they are three, covered by the steps `Acquire` and `Open`, and an `Open` keeps exclusion only under its condition; that a resumption or cancellation reads and saves its record in one step also holds for the in-memory store only.
- RateLimit.NeverOverLimit: the clock does not go backwards, and a key is always used with the same positive limit and window; `INCR` and the first `EXPIRE` are one step in the Redis limiter.
- SynthesisJobs.SynthesisExclusion: all workers use the same lock backend, and no task is cancelled before it starts or between taking the lock and scheduling.
