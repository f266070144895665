# Resort services: models and proofs

Kiki's Paradise is a resort made of small services. This project models the seven pieces whose
correctness is a property of whole runs, and proves those properties. `dafny verify dfyconfig.toml`
checks everything.

* **Gateway response cache** (`CacheModel`, `ResponseCaches`, `CacheLaws`): a map and a linked list
  under one lock, with expiry. The class works on elements in place and is proved against a recency
  list; hits, recency and stack inclusion are proved of that list over arbitrary timed traces. Each
  call has its own time, so nothing is assumed of the clock except where a law says so.
* **Rate limiter and proxy pool** (`RateLimiters`, `ProxyPools`): fixed windows over arbitrary
  traces, and a round-robin counter that wraps at 2^32.
* **Airport gates** (`GateQueues`, `RehydrationOrder`, `GateWaiting`, `AirportModel`,
  `AirportConservation`, `AirportProgress`, `RestartRaces`): at two grains. Conservation is proved over interleaved steps
  of arrival handlers (the gap between commit and enqueue is there), gate workers (each commit and the
  publication are separate steps) and crashes. Waiting, and order in every run, are proved with an
  arrival as one step; at the fine grain order after a restart has an exact condition.
* **Parrot conversations** (`Messages`, `Turns`, `Fragments`, `Chat`, `ChatStream`, `ChatStreamLaws`,
  `History`, `HistoryLaws`, `ParrotLaws`, `ParrotService`, `Admin`, `Transcript`): the tool-calling
  loop, its streaming variant cut at any suspension, fragment assembly, the store that trims whole
  turns, and the metrics and transcripts derived from it. Model and tools are arbitrary functions.
  `ParrotService` joins them: every stored conversation is what one trim leaves of all turns stored
  since it was created, each of them a prefix of a complete turn.
* **Hotel rooms** (`HotelModel`, `HotelRuns`, `HotelService`, `HotelRules`, `HotelLaws`, `HotelOccupancy`,
  `HotelOverlaps`): first fit over half-open stays, and the rooms view computed from the same rows.
  Booking and cancelling are serial steps; in the code the check and the insert are separate
  statements, and what overlapping bookings can do is stated separately.
* **Token wallet** (`Wallets`, `WalletLaws`): a ledger with credits, spending that may replace a
  booking, and refunds.
* **Beach bookings** (`Beach`, `BeachLaws`, `BeachRaces`): check-in, check-out, booking and
  cancelling as serial steps; what overlapping calls can do is stated separately.

Each class method that changes state is specified by a function of the old state; the laws are
lemmas about those functions over arbitrary runs.

## Where the code differs from what one might expect

* `services/airport/README.md:109` says that an interrupted guest is put at the front of the queue
  after a restart. In the code rows replayed later with a strictly better rank still pass them:
  `RestartRaces.RestartFrontIff` says exactly when they stay in front, `RestartRaces.LateArrivalTakesTheFront`
  gives a run in which they do not.
* Rank order after a restart does not hold when an arrival is not one step, because the stamp is
  taken long before the guest is enqueued (`RestartRaces.LateHandlerBreaksOrder`, a run of
  interleaved handlers and a worker); `RestartRaces.RestartSortedIff` is the exact condition over
  all such runs.
* Appending messages that do not start a turn to a conversation that trimming emptied gives another
  result than trimming once (`HistoryLaws.TrimThenAppendIff`, `HistoryLaws.LoneReplyDiffers`). The
  service only ever appends turns, so `ParrotLaws.OneMoreTurn` applies to all it does.
* An id made up for a streamed call can equal one the model sent in the same round; then a transcript
  row gets the wrong name (`Transcript.MadeUpIdCollides`; exact condition `Transcript.LabelsRightIff`).
* The rooms view counts a party of one by its stated guest count, while the room was chosen for one
  guest (`HotelOccupancy.UnderstatedOverfills`; exact conditions `HotelOccupancy.AlwaysFitsIff` for a
  request and `HotelOccupancy.OccupancyWithinCapacityIff` for whole runs).
* A credit key joins guest and reservation with a colon, so credits of guests whose ids contain
  colons can be mistaken for each other (`WalletLaws.ConfusableIff`, `WalletLaws.CreditSwallowed`).
* A pool whose size does not divide 2^32 is uneven at the wrap (`ProxyPools.FairIffDividing`).
* The checks of a beach booking and its transaction are separate, so overlapping calls can exceed a
  capacity: exactly when more visitors call than there are places (`BeachLaws.OverlapWithinIff`).
  The transactions run under REPEATABLE READ: a visitor without a booking who calls for two activities
  at once can keep both, one who has a booking cannot, because the deletes collide
  (`BeachRaces.SnapshotSingleIff`, `BeachRaces.TwoAtOnce`). A booking also goes through if its visitor
  checks out between its checks and its transaction (`BeachRaces.LateWriteIff`).
* The store lowers its running count for every user message it drops, also one with tool calls that it
  never counted; then it can stop too early (`HistoryLaws.DirtyUserExceedsCap`, exact condition
  `HistoryLaws.RunningCountIff`). The service appends no such message.
* The hotel's scan and insert are separate, so overlapping bookings can double-book a room: for two
  admissible requests some run leads there exactly when their stays meet and some room is fit for
  either party (`HotelOverlaps.OverlapSafeIff`, with the run in `HotelOverlaps.RivalsDoubleBook`).

## Choices of the model

* Times are integers or reals given to each call. Counts and token amounts are unbounded integers;
  the one width that matters, the 32-bit counter of the pool, is explicit.
* `Chat.FALLBACK` has no fixed wording: the laws hold for any non-empty text. The streaming script
  takes the number of rounds as a parameter; the service passes `Chat.MAX_TOOL_ROUNDS`.
* A stream that is closed is cut at one of its suspensions: a yield, or a wait for the model or a
  tool. What was yielded there has gone out. A generator that was never started does nothing.
* Reservation ids are places in the table and room ids integers, because only identity and order
  matter. Airport clearance is a table of what is known; an unknown guest is not held back.
* A booking transaction that loses a conflict is redone on the table as it then is, as the database
  library does; that it gives up after several attempts is not modelled.
* Tool-call counts by name are multisets. JSON parsing and the profanity mask are arbitrary functions.

## Model

| member | source | states |
|---|---|---|
| ResponseCaches.ResponseCache.Fetch | gateway/cache.go:45-59 | `get` on the map and the linked list: a miss, an expired entry dropped from both, or a hit moved to the front; the list afterwards is the specified recency list and both still agree |
| ResponseCaches.ResponseCache.Store | gateway/cache.go:61-87 | `set`: nothing when the filter refuses; else the entry, expiring one ttl from now, is in front, rewritten or inserted, and the list is cut to `maxEntries` |
| ResponseCaches.ResponseCache.Evict | gateway/cache.go:84-86 | the eviction loop removes exactly the least recently used records, from map and list alike |
| ResponseCaches.ResponseCache.RemoveElement | gateway/cache.go:89-97 | removing an element takes its key out of the map and the element out of the list; nothing on nil |
| ResponseCaches.ResponseCache.constructor | gateway/cache.go:35-43 | a new cache is empty and its map and list agree |
| ResponseCaches.AgreeKeys | gateway/cache.go:26-33 | when map and list agree, the map's keys are exactly the keys on the list, and as many as there are elements |
| CacheLaws.GetMoves | gateway/cache.go:45-59 | a `get` of the record at any place drops it if it has expired, and else answers it and moves it to the front; the others keep their order |
| CacheLaws.SetMoves | gateway/cache.go:61-87 | a `set` that is taken puts the entry with its expiry in front in place of the key's old record, and keeps as many of the others, in order, as there is room for |
| CacheLaws.RunBounded | gateway/cache.go:45-97 | in every trace the keys on the list are distinct and never more than `maxEntries` |
| CacheLaws.HitIsLastAccepted | gateway/cache.go:45-82 | a hit is the last `set` of that key that the filter accepted, and it has not expired |
| CacheLaws.HitIsWhatWasSet | gateway/cache.go:45-82 | a hit has the status, header and body of the last `set` of its key that was taken, at most the ttl ago |
| CacheLaws.FreshAfterSetIff | gateway/cache.go:54-69 | right after a `set` that is taken the key is a hit, with what was set, if and only if the ttl has not passed |
| CacheLaws.RecentlyUsedIsHit | gateway/cache.go:45-87 | a fresh key with fewer than `maxEntries` other keys stored or hit since its own last use is a hit |
| CacheLaws.RecentSetIsHit | gateway/cache.go:45-87 | the same of the call that stored it: at most the ttl after it the key is a hit with what was set |
| CacheLaws.SmallTraceIsLog | gateway/cache.go:45-97 | on a trace of at most `maxEntries` keys the cache answers exactly like the timed log |
| CacheLaws.SmallTraceHitIff | gateway/cache.go:45-97 | so there a key is a hit if and only if its last `set` that was taken is at most the ttl ago |
| CacheLaws.StackInclusion | gateway/cache.go:45-97 | on one trace the smaller cache's list is a subsequence of the larger one's with equal entries, and the larger has at least as many free places, expiry included |
| CacheLaws.LargerCacheKeepsHits | gateway/cache.go:45-97 | so raising `maxEntries` never turns a hit into a miss |
| RateLimiters.RateLimiter.Allow | gateway/ratelimit.go:47-65 | a call opens a window if there is none or it has passed, and is let through exactly while its count is below the limit; no other client's window changes |
| RateLimiters.RateLimiter.SetLimits | gateway/ratelimit.go:40-45 | the limit is always stored, the window length only if positive |
| RateLimiters.OthersDoNotInterfere | gateway/ratelimit.go:47-65 | a client's answers in a mixed trace are its answers in the trace of its own calls |
| RateLimiters.WindowAccounting | gateway/ratelimit.go:47-65 | what was let through in an interval, plus what the window open at its end can still pass, accounted against the limit |
| RateLimiters.BelowTwiceTheLimit | gateway/ratelimit.go:47-65 | in any closed interval of one window length a client gets at most twice the limit less one |
| RateLimiters.BoundIsAttained | gateway/ratelimit.go:47-65 | for every limit and window length some trace reaches that bound |
| RateLimiters.FixedWindow | gateway/ratelimit.go:40-65 | one client's calls in one window, also with limits changing: at most the largest limit in force, at least the smallest or every call; the recorded count is what passed |
| RateLimiters.FixedWindowAmongOthers | gateway/ratelimit.go:40-65 | the same of a window in a mixed trace, whoever else calls in between |
| ProxyPools.ProxyPool.Pick | gateway/pool.go:49-52 | the pick is the counter before it modulo the pool size; the counter wraps at 2^32 |
| ProxyPools.StraightRunIsFair | gateway/pool.go:49-52 | any k picks without a wrap load each of n backends k/n times, rounded down or up, and evenly when n divides k |
| ProxyPools.LoadsStayClose | gateway/pool.go:49-52 | over any number of picks two backends differ by at most one plus the number of wraps |
| ProxyPools.OneWrapWithinTwo | gateway/pool.go:49-52 | any run of at most 2^32 picks leaves loads within two of each other |
| ProxyPools.FairIffDividing | gateway/pool.go:49-52 | every run is even within one if and only if the pool size divides 2^32 |
| ProxyPools.UnfairAtTheWrap | gateway/pool.go:49-52 | the failing family: right across a wrap one backend is picked twice before another is picked once |
| GateQueues.Gate.Enqueue | services/airport/gate_manager.py:36-44 | in a queue ordered by class (disability, then fast track, then all others) the guest passes exactly the waiting guests of a later class, the order stays, and the answer is the 1-based position; in any queue it goes before the first guest of worse rank and nobody else moves |
| GateQueues.InsertPasses | services/airport/gate_manager.py:13-19 | the same of the queue as a value, stated on disability and priority |
| GateQueues.Gate.TakeNext | services/airport/gate_manager.py:53-57 | the worker takes the head, or nothing |
| GateQueues.Gate.GuestPosition | services/airport/gate_manager.py:192-202 | 0 for the guest in hand, else the first 1-based place, else nothing |
| GateQueues.GateManager.Rehydrate | services/airport/gate_manager.py:113-131 | every gate's queue is rebuilt from its own rows in stamp order; interrupted rows of existing gates are put back to queued, others keep their status |
| GateQueues.GateManager.ShortestQueueGate | services/airport/gate_manager.py:141-143 | the first gate of the type, in creation order, among those with the shortest queue; none exactly if there is no gate of the type |
| GateQueues.GateManager.ChooseGate | services/airport/gate_manager.py:145-151 | an EU passport gets a shortest queue of all gates, an EU gate on a tie; any other passport one of the ALL gates; of equally short gates of the type the first created; nothing exactly if a needed type has no gate |
| GateQueues.GateManager.AssignAndEnqueue | services/airport/gate_manager.py:145-184 | the guest is stamped, a queued row of the chosen gate is committed, the guest passes those of a later class there, and the answer is the position and the queue's size; no other queue changes; nothing exactly if a needed type has no gate |
| GateQueues.GateManager.ReplayRow | services/airport/gate_manager.py:119-130 | one row of the replay: to the front if it was being processed, else by rank; a gate that no longer exists is skipped and the row kept |
| RehydrationOrder.InsertSortedIff | services/airport/gate_manager.py:36-44 | inserting the newest guest neither makes nor mends disorder by class and stamp |
| RehydrationOrder.RebuildContents | services/airport/gate_manager.py:113-130 | rebuilding loses and invents nobody |
| RehydrationOrder.RebuildSortedIff | services/airport/gate_manager.py:113-130 | the rebuilt queue is in order if and only if every guest stamped before the interrupted one is of a later class |
| RehydrationOrder.InterruptedAtFrontIff | services/airport/gate_manager.py:125-130 | the interrupted guest is at the front if and only if nobody stamped later is of an earlier class |
| RehydrationOrder.RunOrdered | services/airport/gate_manager.py:36-131 | in every run of one gate, crashes included, the queue is in order by class and stamp, and any waiting guest older than the one in hand is of a later class |
| RehydrationOrder.EveryRestartIsSorted | services/airport/gate_manager.py:113-131 | after any run and crash the rebuilt queue is the waiting guests and the one in hand, sorted |
| RehydrationOrder.IdleRestartIsInvisible | services/airport/gate_manager.py:113-131 | a restart while the worker holds nobody changes nothing |
| RestartRaces.RestartSortedIff | services/airport/gate_manager.py:113-176 | after any run of interleaved handlers, workers and restarts, the next restart leaves a gate in order if and only if everyone waiting there who was stamped before the guest being processed is of a later class |
| RestartRaces.RestartFrontIff | services/airport/gate_manager.py:113-176 | and the interrupted guest is at the front if and only if nobody waiting there was stamped later and is of an earlier class |
| RestartRaces.LateHandlerBreaksOrder | services/airport/gate_manager.py:145-176 | a run in which one handler stamps and commits first and has not enqueued yet while another's guest is being processed; the restart puts them out of order |
| RestartRaces.LateArrivalTakesTheFront | services/airport/gate_manager.py:113-176 | a run after which a guest of an earlier class who arrived later comes before the interrupted one |
| GateWaiting.PositionLaw | services/airport/gate_manager.py:36-57 | a waiting guest's index falls by one per guest taken and rises by one per later arrival of an earlier class |
| GateWaiting.DisabilityIsNeverOvertaken | services/airport/gate_manager.py:16-57 | a guest with a disability only moves forward |
| GateWaiting.WaitBound | services/airport/gate_manager.py:69-76 | whoever is told position n waits at least n processing times |
| AirportConservation.StepKeeps | services/airport/gate_manager.py:50-176 | each step of handlers, workers and restarts keeps the conservation invariant |
| AirportConservation.NobodyLostOrDuplicated | services/airport/gate_manager.py:50-176 | in every interleaving with any crashes an unprocessed guest is in exactly one place, a processed one in none, and each gate has at most one row marked processing |
| AirportConservation.QuietMeansServed | services/airport/gate_manager.py:50-176 | when handlers, queues and workers are empty everyone has been processed |
| AirportConservation.PublishedAtMostOnce | services/airport/gate_manager.py:78-86 | the event goes out at most once per guest, and only after the processed commit |
| AirportConservation.EventMissingIff | services/airport/gate_manager.py:78-86 | in every run the event of a processed guest is missing exactly while the worker is about to publish it, and for good if a restart came at that moment |
| AirportConservation.ProcessedIsFinal | services/airport/gate_manager.py:50-131 | rows are never lost and never leave `processed` |
| AirportProgress.StepAdvances | services/airport/gate_manager.py:50-176 | every step of a handler or worker takes exactly one off the steps that are left |
| AirportProgress.NeverStuck | services/airport/gate_manager.py:50-176 | while somebody is with a handler, in a queue or with a worker, some such step is possible |
| AirportProgress.EveryoneIsServed | services/airport/gate_manager.py:50-176 | without further arrivals and restarts there are at most that many steps, in whatever order, and after so many everyone has been processed |
| AirportProgress.EveryRunDrains | services/airport/gate_manager.py:50-176 | every run can be continued so |
| AirportProgress.EveryoneIsAnnounced | services/airport/gate_manager.py:78-86 | a run without restarts that has come to rest has published every guest exactly once |
| History.ConversationStore.TrimMessages | services/parrot/history.py:38-48 | `_trim` terminates and leaves what trimming by the running count specifies |
| HistoryLaws.RunningCountIff | services/parrot/history.py:38-48 | trimming by the running count equals trimming by the true one if and only if at no place where the conversation may be cut the messages left exceed the cap by no more than the user messages with tool calls before it |
| HistoryLaws.DirtyUserExceedsCap | services/parrot/history.py:38-48 | a user message with tool calls can leave more than the cap |
| History.ConversationStore.Append | services/parrot/history.py:18-27 | the conversation is created if absent, extended, stamped and trimmed; no other changes |
| History.ConversationStore.GetMessages | services/parrot/history.py:11-16 | reading returns the messages and keeps the conversation alive; an unknown guest changes nothing |
| History.ConversationStore.GetVisible | services/parrot/history.py:29-36 | exactly the user and assistant messages without tool calls, in order |
| History.ConversationStore.Cleanup | services/parrot/history.py:50-58 | expired conversations go, then the least recently accessed until the ceiling is met; every other stays as it is |
| HistoryLaws.TrimIsLongest | services/parrot/history.py:38-48 | what is kept is the longest suffix starting at a user message that is within the cap |
| HistoryLaws.TrimWithinCap | services/parrot/history.py:38-48 | no more content messages than the cap are kept |
| HistoryLaws.VisibleAre | services/parrot/history.py:29-40 | a guest sees exactly the user and assistant messages without a `tool_calls` key, in the order in which they came, and as many as the cap counts |
| HistoryLaws.TrimThenAppendIff | services/parrot/history.py:18-48 | trimming before an append shows in the result exactly in one situation, which the caller can check |
| HistoryLaws.IncrementalIsOneShot | services/parrot/history.py:18-48 | after any appends that each start a turn, the stored list is one trim of everything ever appended |
| HistoryLaws.NewestTurnSurvives | services/parrot/history.py:18-48 | a turn within the cap survives the append that brings it |
| HistoryLaws.LoneReplyDiffers | services/parrot/history.py:18-48 | an append that does not start a turn can make the two differ |
| ParrotLaws.KeepsNewestTurns | services/parrot/history.py:38-48 | of a sequence of begun turns the store keeps the longest run of newest whole turns within the cap |
| ParrotLaws.NewestTurnIsKept | services/parrot/history.py:38-48 | with a cap of two or more the newest turn is always among them |
| ParrotLaws.KeptIsTalk | services/parrot/history.py:18-48 | what is kept is again a well-formed conversation within the cap |
| ParrotLaws.OneMoreTurn | services/parrot/history.py:18-27 | storing one more turn and trimming equals trimming all turns at once |
| Chat.RunTools | services/parrot/llm.py:161-164 | the calls of a round run in order until one raises; the rows are in call order |
| Chat.RunChat | services/parrot/llm.py:140-174 | `chat` for any model and tools: the specified result, and in order exactly the specified prompts, each of them the system prompt, the history, the guest's message and what was added since, also when the request fails |
| Chat.PromptsBetween | services/parrot/llm.py:146-164 | each prompt is what came before the request and a prefix of the new messages, and there are at most five |
| Chat.ChatAddsOneTurn | services/parrot/llm.py:140-174 | an answered request adds one complete turn from the guest's message to the non-empty reply |
| Chat.ChatOutcome | services/parrot/llm.py:146-174 | how a request ends, read off the model and the tools: every round before the last adds the completion with its calls as sent and a row per call with its id and the tool's answer; the reply is the content of the first completion that asks for no tools, or the fallback if that is empty or all rounds are used up; in every other case it raises |
| Turns.FullTurnIff | services/parrot/llm.py:140-174 | the grammar of a complete turn (user, groups of calls each answered in order, reply) and the left-to-right reader agree |
| Turns.BegunIff | services/parrot/llm.py:202-283 | a begun turn is exactly a non-empty prefix of a complete one |
| Turns.TurnShowsAtMostTwo | services/parrot/llm.py:140-283 | a complete turn shows two messages, an incomplete one only the guest's |
| Turns.TalkTakesTurn | services/parrot/llm.py:281-283 | adding a begun turn keeps a conversation well formed |
| Turns.TurnsOfTalk | services/parrot/llm.py:140-283 | a well-formed conversation is a concatenation of begun turns |
| Turns.TalkOfTurns | services/parrot/llm.py:140-283 | and every concatenation of begun turns is one |
| Fragments.MergeByIndex | services/parrot/llm.py:212-231 | each slot holds what the fragments with its index spell out, whatever came in between |
| Fragments.SlotIsLast | services/parrot/llm.py:224-231 | a slot is there exactly if a fragment came for its index; its id and name are the last non-empty ones that came for it |
| Fragments.CallsInIndexOrder | services/parrot/llm.py:233-241 | the calls come in index order, each from its own fragments; a missing id is made from the index |
| Fragments.DigitsRead | services/parrot/llm.py:236 | the index written into a made-up id reads back as the index |
| Fragments.AssemblyIsConfluent | services/parrot/llm.py:212-241 | streams that agree index by index assemble to the same calls |
| Fragments.SwapIsInvisible | services/parrot/llm.py:224-231 | neighbouring fragments of different calls may be swapped |
| Fragments.CutIsInvisible | services/parrot/llm.py:230-231 | an argument string may be cut anywhere |
| ChatStream.Generator.Do | services/parrot/llm.py:202-279 | one act of the generator: it yields, waits or keeps a message, and is closed if that was its last suspension |
| ChatStream.Generator.ReadChunks | services/parrot/llm.py:214-231 | the chunk loop sends each text as it comes and merges the fragments |
| ChatStream.Generator.AnswerCalls | services/parrot/llm.py:255-260 | a call status, the tool, a result status and the row, call by call, until a tool raises |
| ChatStream.Generator.Conclude | services/parrot/llm.py:233-272 | an error, the final answer, or the tool-call message and its answers |
| ChatStream.Generator.Round | services/parrot/llm.py:203-272 | one round of the loop |
| ChatStream.Generator.Run | services/parrot/llm.py:202-279 | the whole generator performs its script up to the suspension where it is closed |
| ChatStream.Generator.Over | services/parrot/llm.py:202-283 | its events and kept messages are those of the script cut there |
| ChatStreamLaws.StreamedTurnIsBegun | services/parrot/llm.py:202-283 | for any model, tools, failure and disconnect the persisted messages are a begun turn |
| ChatStreamLaws.ReplyAgreement | services/parrot/llm.py:264-279 | when `done` went out its reply is the persisted one and the turn is complete; the reply is the concatenation of all deltas, or the fallback if there was none; with rounds used up the deltas are exactly the text of all rounds and then the fallback |
| ChatStreamLaws.StreamOutcome | services/parrot/llm.py:202-280 | what a stream that nobody cuts persists and sends, read off the model and the tools: per round its texts, its calls, their statuses and rows, and at the end the whole streamed text, the fallback, or an error |
| ChatStreamLaws.AtMostOneClosing | services/parrot/llm.py:264-280 | at most one of `done` and `error` is sent |
| ChatStreamLaws.ToolStatusesArePaired | services/parrot/llm.py:255-260 | every call status is followed by its own result before anything else, unless the run failed or was cut there |
| ParrotService.Parrot.CompleteStream | services/parrot/llm.py:281-283 | a stream stores exactly one turn, the one its events tell of, and nothing without a guest id |
| ParrotService.Parrot.ReadHistory | services/parrot/routes.py:28-31 | the history of a request is a well-formed conversation: one trim of all turns stored so far |
| ParrotService.Parrot.CompleteChat | services/parrot/routes.py:33-41 | a failure stores nothing; an answer stores one complete turn ending with the reply returned |
| ParrotService.Parrot.Sweep | services/parrot/main.py:36-39 | the sweep forgets expired conversations, then the least recently accessed down to the ceiling, and touches no other |
| Admin.MarkerIff | services/parrot/admin.py:10-22 | an error marker is found exactly if some path of any depth leads to an object with an `error` key |
| Admin.SummarizeConversation | services/parrot/admin.py:38-87 | the counting loop computes the pointwise sum of what each message adds |
| Admin.SummaryCounts | services/parrot/admin.py:54-73 | every count is the number of messages it is named for: guest messages, censored ones, answers without calls, fallbacks, tool rows with an error marker |
| Admin.CallsCounted | services/parrot/admin.py:62-66 | the count under a name is the number of calls that go by it, "unknown" standing for no name |
| Admin.SummaryOfConcat | services/parrot/admin.py:38-87 | summarising a concatenation is the pointwise sum of the summaries |
| Admin.BuildMetrics | services/parrot/admin.py:90-137 | the totals are the summary of all conversations run together; the flags count conversations |
| Admin.CountWhereIs | services/parrot/admin.py:116-121 | a count of conversations is the number of those whose summary meets its condition |
| Admin.OrderIsIrrelevant | services/parrot/admin.py:90-121 | the totals do not depend on the order of the conversations |
| Admin.CallsAddUp | services/parrot/admin.py:62-66 | the counts by name add up to the total number of tool calls |
| Admin.TurnsAreVisible | services/parrot/admin.py:54-70 | turns and assistant turns are the visible messages plus those with a `tool_calls` key that the rules disagree on |
| Transcript.NormalizeTranscript | services/parrot/admin.py:177-208 | nothing is dropped or reordered; each row keeps its role, content and calls, a tool row its call id, and it is normalised with the group in force |
| Transcript.GroupNamesLast | services/parrot/admin.py:200-206 | the name under an id is that of the last call of the group that has the id and a name |
| Transcript.RowNamedFromOwnGroup | services/parrot/admin.py:192-207 | every tool row of a well-formed conversation is named from the group of the very call it answers |
| Transcript.OwnGroupIsNearest | services/parrot/admin.py:192-207 | that group is the nearest message with tool calls before the row |
| Transcript.LabelsRightIff | services/parrot/admin.py:200-206 | every row of a group gets the right name if and only if calls with one id carry one name and a call without an id carries none |
| Transcript.DistinctIdsSuffice | services/parrot/admin.py:200-206 | distinct ids are enough |
| Transcript.RowsNamedRight | services/parrot/admin.py:192-207 | in a well-formed conversation whose groups have no id under two names, every tool row bears the name of the very call it answers, in the nearest group before it |
| ParrotService.Parrot.TranscriptNamesRight | services/parrot/admin.py:192-207 | and so in the transcript of every stored conversation |
| Transcript.MadeUpIdCollides | services/parrot/llm.py:233-241 | a made-up id can equal one that was sent, and then a row gets the other call's name |
| Transcript.CollisionExists | services/parrot/llm.py:233-241 | a concrete stream that does so |
| HotelService.Hotel.Create | services/hotel/src/reservation/reservation.service.ts:34-132 | booking: the refusals in the code's order, or a new confirmed row in the first fitting free room, its id and one event |
| HotelService.Hotel.MaxCapacity | services/hotel/src/reservation/reservation.service.ts:56-64 | the largest capacity of the kind, none when the kind has no room |
| HotelService.Hotel.FindRoom | services/hotel/src/reservation/reservation.service.ts:66-86 | the scan in id order finds the first room that is big enough and free |
| HotelService.Hotel.FindBlocked | services/hotel/src/reservation/reservation.service.ts:181-204 | the first guest of the party known not to have cleared the airport; none exactly if all known ones have |
| HotelService.Hotel.Cancel | services/hotel/src/reservation/reservation.service.ts:272-319 | not found, already cancelled without an event, or cancelled with one event |
| HotelLaws.PartyAcceptedIff | services/hotel/src/reservation/reservation.service.ts:134-179 | an explicit party passes exactly if it is non-empty, named, without repeats and has the booker; it counts by its members |
| HotelLaws.GrantedIff | services/hotel/src/reservation/reservation.service.ts:34-132 | a request is granted exactly if admissible and some room of the kind is big enough and free, and it gets the one with the lowest id |
| HotelLaws.RefusedIff | services/hotel/src/reservation/reservation.service.ts:51-95 | an admissible request is over capacity exactly if every room of the kind is too small, and finds no room exactly if some is big enough but each of those is taken |
| HotelRules.PartyIff | services/hotel/src/reservation/reservation.service.ts:134-179 | who a party is and how many it counts: the booker alone with the stated count, or the explicit members, named, different, with the booker, counted by their number |
| HotelRules.BadRequestIff | services/hotel/src/reservation/reservation.service.ts:37-179 | the five refusals for days and party, each with its exact condition in the code's order |
| HotelRules.NotClearedIff | services/hotel/src/reservation/reservation.service.ts:181-204 | a request with good days and party is refused for a guest exactly if that guest is its first member whom the airport knows not to have cleared; unknown members do not block |
| HotelRules.GrantedExactly | services/hotel/src/reservation/reservation.service.ts:34-95 | it is given a room exactly if every member known to the airport has cleared and the room is the first of the kind that holds the party and whose confirmed stays all end before the request or begin after it |
| HotelRules.NoRoomIff | services/hotel/src/reservation/reservation.service.ts:51-95 | the two refusals for rooms, each with its exact condition |
| HotelRules.MakeAddsOne | services/hotel/src/reservation/reservation.service.ts:97-132 | a grant adds one confirmed reservation with the request's details and publishes it; a refusal changes nothing |
| HotelRules.DropChangesOne | services/hotel/src/reservation/reservation.service.ts:272-319 | cancelling changes the status of one reservation and publishes it once; a second time it does nothing |
| HotelLaws.NoDoubleBooking | services/hotel/src/reservation/reservation.service.ts:73-95 | in every run two confirmed reservations of one room never share a day |
| HotelLaws.EventsCountConfirmed | services/hotel/src/reservation/reservation.service.ts:97-132 | confirmations published minus cancellations published are the confirmed rows gained |
| HotelLaws.RefusalMeansFull | services/hotel/src/reservation/reservation.service.ts:66-95 | an availability refusal means at least as many confirmed reservations meet the days as there are rooms that could take the party |
| HotelLaws.CreateThenCancel | services/hotel/src/reservation/reservation.service.ts:272-319 | booking and cancelling leaves the answer to every later sequence of requests as it was, up to numbering |
| HotelOccupancy.GrantFitsIff | services/hotel/src/reservation/reservation.service.ts:46-64 | a granted room is shown within its capacity exactly unless an explicit party of one states a guest count above it |
| HotelOccupancy.AlwaysFitsIff | services/hotel/src/reservation/reservation.service.ts:46-64 | an admissible request fits whatever room it is given in every run if and only if no room of the kind that is big enough for its party is too small for its guest count |
| HotelOverlaps.OverlapSafeIff | services/hotel/src/reservation/reservation.service.ts:66-97 | two admissible bookings may both scan before either inserts, in every run, without double booking if and only if their stays do not meet or no room is fit for both parties |
| HotelOverlaps.RivalsDoubleBook | services/hotel/src/reservation/reservation.service.ts:66-97 | otherwise a run leads to a table on which both are granted the same room |
| HotelOverlaps.WithoutRivalsSafe | services/hotel/src/reservation/reservation.service.ts:66-97 | any number of bookings no two of which are such rivals may overlap |
| HotelLaws.OverlapSoundIff | services/hotel/src/reservation/reservation.service.ts:66-97 | on one table, overlapping bookings leave no double booking if and only if no two of them chose the same room for stays that meet |
| HotelOccupancy.OneNightRefusedIff | services/hotel/src/reservation/reservation.service.ts:66-95 | an admissible one-night request that some room could take is refused exactly when the rooms view shows guests in every such room |
| HotelService.Hotel.FindAll | services/hotel/src/rooms/rooms.service.ts:14-60 | the accumulating map gives every room, in order, the sum of the guests of the confirmed stays covering the day |
| HotelOccupancy.OccupancyIsOneStay | services/hotel/src/rooms/rooms.service.ts:35-48 | that sum is the one covering stay's number of members, or its stated count if it has only one |
| HotelOccupancy.ViewWithinCapacityIff | services/hotel/src/rooms/rooms.service.ts:35-48 | a room is within capacity on every day if and only if each confirmed reservation of it fits |
| HotelOccupancy.OccupancyWithinCapacity | services/hotel/src/rooms/rooms.service.ts:35-48 | in every run whose bookings are modest in that sense occupancy stays within capacity |
| HotelOccupancy.OccupancyWithinCapacityIff | services/hotel/src/rooms/rooms.service.ts:35-48 | for any set of allowed calls: no run of them ever shows a room beyond its capacity if and only if every admissible booking among them is modest |
| HotelOccupancy.UnderstatedOverfills | services/hotel/src/rooms/rooms.service.ts:35-48 | with one, any room is shown beyond its capacity |
| Wallets.TokenWallet.CreditReservationTokens | frontend/src/features/tokens/token-store.ts:65-83 | a positive amount under a new key is added once; anything else changes nothing |
| Wallets.TokenWallet.CanAffordActivity | frontend/src/features/tokens/token-store.ts:85-95 | affordable exactly if the cost is covered by everything in the guest's name when the named activity is the tracked one, and by the balance alone otherwise |
| Wallets.TokenWallet.SpendActivityTokens | frontend/src/features/tokens/token-store.ts:97-125 | succeeds exactly if the activity is already tracked, which changes nothing, or those funds cover the cost, which leaves the difference and tracks it; a refusal changes nothing |
| Wallets.TokenWallet.RefundActivityTokens | frontend/src/features/tokens/token-store.ts:127-159 | the answer is what the balance gained; afterwards the activity is not tracked |
| WalletLaws.NeverInDebt | frontend/src/features/tokens/token-store.ts:65-159 | in every run no balance is negative, for any costs |
| WalletLaws.KeysOnRecord | frontend/src/features/tokens/token-store.ts:68-80 | the keys on record are those ever asked for with a positive amount |
| WalletLaws.LedgerBalances | frontend/src/features/tokens/token-store.ts:65-159 | balance plus tracked cost equals credits, each key once, plus fallback refunds, less what was forfeited by naming another current activity |
| WalletLaws.SpendsFromLedger | frontend/src/features/tokens/token-store.ts:97-125 | in every run a spend on another activity goes through exactly if what came in, less what was forfeited, less a tracked booking the call does not name, covers the cost; the rest is the balance |
| WalletLaws.SpendThenRefund | frontend/src/features/tokens/token-store.ts:97-159 | spending and giving back restores the balance, plus the refund of a booking it replaced |
| WalletLaws.ConfusableIff | frontend/src/features/tokens/token-store.ts:45-47 | credits of two guests can share a key exactly if one id continues the other with a colon |
| WalletLaws.OthersDoNotMatter | frontend/src/features/tokens/token-store.ts:65-159 | without such ids a guest's wallet depends on the guest's own steps only |
| WalletLaws.CreditSwallowed | frontend/src/features/tokens/token-store.ts:68-69 | with such ids one guest's credit can be refused because of another's |
| Beach.BeachService.BookActivity | services/beach/src/main/kotlin/application/usecase/BookActivityUseCase.kt:14-45 | the refusals in the code's order, or the visitor's only booking is the activity; with several bookings on the table the one read decides whether a double booking is noticed |
| BeachLaws.BookedIff | services/beach/src/main/kotlin/application/usecase/BookActivityUseCase.kt:14-45 | a booking goes through exactly for a named, checked-in visitor, an existing activity with a place left, and no booking there yet |
| BeachLaws.BookRefusals | services/beach/src/main/kotlin/application/usecase/BookActivityUseCase.kt:14-45 | what a booking is refused for, each refusal with its exact condition in the code's order |
| BeachLaws.CancelRefusals | services/beach/src/main/kotlin/application/usecase/CancelActivityUseCase.kt:12-26 | the same of cancelling |
| BeachLaws.CallChanges | services/beach/src/main/kotlin/infrastructure/repository/PostgresVisitorRepository.kt:35-64 | what each call changes, pair by pair and visitor by visitor: cancelling removes one pair, check-out the visitor's own, booking replaces the visitor's own, a refusal nothing |
| BeachLaws.RunIsSafe | services/beach/src/main/kotlin/application/usecase/BookActivityUseCase.kt:14-45 | in every run no activity exceeds its capacity, no visitor has two bookings, and who is booked is checked in and in an activity that exists |
| BeachLaws.BookingReplaces | services/beach/src/main/kotlin/application/usecase/BookActivityUseCase.kt:30-42 | switching keeps the number of bookings, a first booking adds one, nobody else's changes |
| BeachLaws.OverlapWithinIff | services/beach/src/main/kotlin/application/usecase/BookActivityUseCase.kt:38-42 | calls of different visitors that all pass the checks on one table and then write keep every activity within capacity if and only if no activity is called for by more visitors than it has places for, places given up by callers included |
| BeachLaws.SamePlaceIff | services/beach/src/main/kotlin/application/usecase/BookActivityUseCase.kt:38-42 | for one activity: if and only if there are no more callers than places left |
| BeachLaws.LastPlaceTwice | services/beach/src/main/kotlin/application/usecase/BookActivityUseCase.kt:38-42 | the smallest failing instance: two calls and one place |
| BeachRaces.SnapshotSingleIff | services/beach/src/main/kotlin/infrastructure/database/DatabaseFactory.kt:33-34 | booking transactions on one snapshot, losers of a conflict redone, keep one booking per visitor if and only if no visitor without a booking on the snapshot ends with calls for two activities pending |
| BeachRaces.SnapshotSingleNoRepeatsIff | services/beach/src/main/kotlin/infrastructure/database/DatabaseFactory.kt:33-34 | when no call is repeated: if and only if no visitor without a booking calls for two activities |
| BeachRaces.TwoAtOnce | services/beach/src/main/kotlin/application/usecase/BookActivityUseCase.kt:30-42 | an instance the checks let through: a visitor without a booking calls for two activities at once and keeps both |
| BeachRaces.DistinctVisitorsSerial | services/beach/src/main/kotlin/infrastructure/repository/PostgresActivityRepository.kt:107-120 | for different visitors overlapping transactions do what serial ones do |
| BeachRaces.LateWriteIff | services/beach/src/main/kotlin/application/usecase/BookActivityUseCase.kt:23-42 | a booking whose transaction comes after other calls than its checks leaves every booked visitor checked in if and only if its visitor has not left in between |
| Beach.BeachService.CancelActivity | services/beach/src/main/kotlin/application/usecase/CancelActivityUseCase.kt:12-26 | the refusals in the code's order, or the pair is gone; nothing if it was not there |
| BeachLaws.BookThenCancel | services/beach/src/main/kotlin/application/usecase/CancelActivityUseCase.kt:12-26 | booking and cancelling leaves the visitor without a booking and everyone else as before |
| Beach.BeachService.Replace | services/beach/src/main/kotlin/infrastructure/repository/PostgresActivityRepository.kt:107-120 | the visitor's bookings are deleted and the new pair inserted |
| Beach.BeachService.FindById | services/beach/src/main/kotlin/infrastructure/repository/PostgresActivityRepository.kt:66-80 | the first activity with the id, its capacity and exactly the visitors booked there; none exactly if there is no such activity |
| Beach.BeachService.FindByBookedVisitor | services/beach/src/main/kotlin/infrastructure/repository/PostgresActivityRepository.kt:82-105 | the activity of one booking of the visitor |
| Beach.BeachService.FindAll | services/beach/src/main/kotlin/infrastructure/repository/PostgresActivityRepository.kt:46-64 | every activity with its booked visitors |
| BeachLaws.WriteKeepsSingle | services/beach/src/main/kotlin/infrastructure/repository/PostgresActivityRepository.kt:107-120 | booking transactions that run one after another keep one booking per visitor, whatever was checked before |
| BeachLaws.PlacesAddUp | services/beach/src/main/kotlin/domain/model/Activity.kt:11-17 | remaining places over all activities plus bookings are the total capacity |
| BeachLaws.PlacesConserved | services/beach/src/main/kotlin/domain/model/Activity.kt:11-17 | and so in every run |
| Beach.BeachService.CheckInVisitor | services/beach/src/main/kotlin/infrastructure/repository/PostgresVisitorRepository.kt:35-52 | the visitor is checked in, known before or not |
| Beach.BeachService.CheckOutVisitor | services/beach/src/main/kotlin/infrastructure/repository/PostgresVisitorRepository.kt:54-64 | the visitor's bookings go, and a known visitor is checked out |

## Left out

* Cache keys, header copying, response capture and the choice of cacheable responses in
  `gateway/cache.go`: library calls or single branches. Entries are compared as values.
* The middleware of `gateway/ratelimit.go` that passes everything when the limit is not positive; the
  limiter itself is modelled for any limit.
* The gate status report of `services/airport/gate_manager.py`, and other handlers moving while a gate
  is chosen (queue lengths are read without a lock): conservation and order are proved for any choice.
* The game clock of the airport: waiting times are in game time, with the worker holding a guest for
  at least the processing time.
* The system prompt's text, the profanity filter, tool dispatch and the parsing of tool arguments in
  `services/parrot/llm.py`; the messages sent to the model in the streaming path.
* `list_conversations` and the derived flags of `services/parrot/admin.py`, and the fields of a
  transcript that are copied without change of meaning (the nested `function` object is flattened in
  the data model).
* `peek` and `snapshot` of `services/parrot/history.py`, which only copy.
* `findById`, `findActiveByGuestId`, the sorting of party members in answers, and prices in the hotel
  service; request validation before `create` enters only where a law needs a positive guest count.
* Interleavings in the hotel other than bookings that overlap between scan and insert.
* Session storage and subscriptions of the token wallet.
* `save` in the beach repository, which no route calls, and names and descriptions of activities.
- History.ConversationStore.Cleanup: does not say which of several conversations with equal access times goes first; the code follows the order of the dictionary.
- GateQueues.GateManager.Rehydrate: models the replay loop on rows already read in stamp order; the query itself and the single commit after the loop are not part of it, a crash between them being a crash before the restart.
- ChatStream.Generator.Run: does not model the messages sent to the model in each round, nor the text of the events on the wire, only their kinds and contents.
- Beach.BeachService.FindByBookedVisitor: which booking is read when a visitor has several is left open, as in the query; the proved invariant rules that out.
