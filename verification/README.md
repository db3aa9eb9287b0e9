# dipper-bot: context store, memory and scheduling, verified

A Dafny 4.11 model of the stateful parts of dipper-bot and proofs of what they promise. Verify it with
`dafny verify dfyconfig.toml`.

## What is modelled

- **Lossless context store** (`lcm/`). One `Store` object holds the rows of one conversation: the message log, the
  summaries with their edges, and the ordered context list. The two writing transactions are specified by the
  functions `Insert`/`Ingest` and `Replace` on the tables. `Valid` says that the list expands to exactly the log
  (`Lossless`), that ordinals are dense, that every reference resolves, that the summaries form a forest of depth two,
  and that descendant counts and time intervals are what the edges justify. Every step keeps it from every valid
  state, `RunValid` carries it over every history, and a plan that appends have outrun is still right
  (`StaleReplaceKeepsValid`). What a pass may compact is said without loops (`IsLeafChunk`, `IsSegment`), shown to be
  unique, and the scanning and trimming loops are proved to find it.
- **Sessions, turns and consolidation** (`session/manager.go`, `agent/loop.go`, `tools/consolidator.go`). The session
  and the context store stay in step over whole runs of turns. What a consolidation does is described without its loops
  (`IsConsolidation`), shown to leave nothing open, and carried over runs of turns: the archived chunks are exactly the
  messages before the mark, each with its own history entry. One round brings the prompt to its target although two
  different estimators are involved.
- **Rate limiter** (`utils/rate_limit.go`). The limiter that collects garbage refines one that never forgets; the
  number of calls admitted in any window-long interval is bounded, and the bound is reached.
- **Note files** (`tools/memory_store.go`). Round trip of the delimiter format, and an invariant of both files over all
  sequences of tool calls.
- **Tool loop** (`agent/loop.go`). Every transcript handed to the provider is well formed, and a repeated MCP call of
  one batch is executed once.
- **Scheduler** (`cron/service.go`). The operations on the job list, and all interleavings of ticks with them: one-shot
  jobs run at most once.
- **Package cleaner** (`skills/pptx/scripts/clean.py`). The delete-until-nothing-changes loop ends in the largest
  part of the package whose files justify each other, which holds all that the slides show. `PptxResult` says by
  folders and names what is left.

A summarizer, a provider, a tool, a job handler, the clock, random ids, time formatting, Unicode lower-casing and the
safety scan are parameters that may answer anything. Where another turn can act while no lock is held, the messages it
appends are a parameter too (`ModelCall.arrivals`, `Calls.between`, `World.arrivals`). A threshold computed in floating
point is passed as the integer it yields. In the LCM, session and consolidator modules a `string` is a byte string, so
that its length is the length the code counts; in the note modules it is a sequence of code points whose UTF-8 width is
computed.

## Where the code differs from its promises

The code is followed; each point is a lemma or an exact condition in a contract.

- `doc/LCM.md:10` lets a condensed summary cover other condensed ones, and `doc/CONFIG_CN.md:395-397` calls
  `incrementalMaxDepth` a depth limit. The code condenses leaves only and only asks whether the setting is zero.
- The leaf scan stops at the first summary. From any valid state a conversation therefore gets at most one more leaf in
  its whole life, and is not condensed again unless the leaves it has and that one are enough (`OneMoreLeaf`).
- A leaf chunk exceeds `leafChunkTokens` exactly when its first message alone does, which needs a fanout of at most
  one (`LeafChunkWithinLimit`, `OversizedChunk`).
- The import at the start of a turn closes a gap between session and log exactly when there is none, or when the
  session has at most 999999 messages and the missing ones have roles the table admits (`CanCatchUp`,
  `CannotCatchUp`). The code itself writes admitted roles only, so that a bad one takes an edited session file.
- The five rounds of consolidation only matter when the session or the fixed part of the prompt grows meanwhile:
  otherwise there is one round at most, also when no cut removes enough (`OnceInSteadyWorld`).
- The burst bound is `2 * limit - 1`, one better than two full windows (`BurstBound`, `BurstBoundReached`).
- Note entries come back exactly when none contains the delimiter or ends with its beginning (`RoundTrip`). The tool
  does not refuse such content: one accepted entry can come back as two equal ones (`DelimiterInContent`), and one that
  ends where a delimiter begins changes its neighbour (`NeighbourSpoiled`). `WriteStaysTidy` says exactly which content
  does no harm. A replacement that another entry already covers is reported as if it had been made
  (`ReplyMatchesFile`, `CoveredHappens`).
- A one-shot job whose time passes while a tick is busy is never run: the tick ends with the job spent exactly when its
  time has come (`SpentWhenRearmed`), nothing later makes a tick start it (`SpentNeverStarts`), and it happens
  (`LostJob`).

## Model

The first 38 rows are the main results; the others, module by module, say what they rest on and where the code
falls short.

| member | source | states |
|---|---|---|
| LcmTables.StaleReplaceKeepsValid | lcm/compaction.go:96-129 | a replacement planned before any number of appends and committed after them is lossless and leaves every appended item at the end, in order |
| LcmTables.ReplaceKeepsValid | lcm/store.go:389-498 | replacing a run of messages by a leaf, or of leaves by a condensed summary, is accepted, stays lossless, keeps the DAG, and touches no other item |
| LcmTables.IngestKeepsValid | lcm/store.go:157-189 | an ingest transaction that goes through keeps the whole invariant and only appends, to the log and to the end of the context list |
| LcmTables.DescendantsCounted | lcm/compaction.go:217-229 | descendant_count is the number of distinct summaries reachable along the parent edges, to whatever depth |
| LcmPlan.RunValid | lcm/compaction.go:31-255 | every state of every history of appends, leaf passes and condensations, each planned on a state only appends have outrun, is lossless and keeps the DAG |
| LcmPlan.LeafStepTokens | lcm/compaction.go:74-127 | the context total drops by the chunk and grows by the summary, which is at most the chunk or half the target plus nine |
| LcmPlan.OneMoreLeaf | lcm/compaction.go:52-55 | from any valid state a conversation gets at most one more leaf in its whole life, and no more condensed summaries unless its leaves and that one reach the fanout |
| LcmPlan.LeafTextCut | lcm/compaction.go:99-106 | after a failed call a longer input keeps its first 2048 bytes and the note when that fits the chunk, and any text that did not shrink gives way to the first 4 * (target / 2) bytes of the input |
| LcmCompaction.CompactionEngine.RunIncremental | lcm/compaction.go:31-136 | the whole run: leaf pass, then a condensation of the shortened list if the leaf was stored and it is on, with appends during both calls and in between; the log only grows, the last FreshTailCount items stay, less those that arrive before the condensation is planned, and the list in front of them does not grow |
| LcmAssembler.Assemble | lcm/assembler.go:17-65 | the longest suffix with the fresh tail that fits the threshold in force, just the tail when that uses it up |
| LcmAssembler.CutCoversLogSuffix | lcm/assembler.go:17-65 | the items shown stand for a gap-free end of the message log |
| LcmAssembler.TailSurvivesAssembly | lcm/assembler.go:32-63 | what a compaction run protects at the end, the next assembly still shows at the end |
| LcmEngine.Engine.IngestTurn | lcm/engine.go:138-178 | the log continues with exactly the turn and a compaction run follows exactly when the context is over the threshold, whatever other turns append during it; or nothing changes |
| LcmEngine.Engine.AssembleContext | lcm/engine.go:91-101 | the messages are the formatted optimal suffix and stand for a gap-free end of the log; each shows the role and content of the log row it comes from, so that without summaries they are the last rows of the log |
| AgentTurn.CompleteTurn | agent/loop.go:396-438 | the log only grows, by the import and then the expanded user text and the reply; log and session agree in length, seqs and roles exactly when the import could catch up, and then the log has gained exactly what it was missing and the turn |
| AgentTurn.RunTurns | agent/loop.go:350-438 | over any run of turns that do not overlap, with failed questions and /new, every turn ends with session and log in step, and the log holds what was missing and every completed turn once, in order |
| ConsolidationPlan.OneRoundIsEnough | tools/consolidator.go:106-159 | dropping messages worth the excess by one estimator brings the other to the target |
| ConsolidationPlan.OnceInSteadyWorld | tools/consolidator.go:304-335 | with no arrivals and a fixed part that does not grow there is one round at most, whatever the model answers, and it reaches the target whenever some cut removes the excess |
| Consolidator.MemoryConsolidator.MaybeConsolidateByTokens | tools/consolidator.go:274-336 | the whole new state of session and memory files: nothing unless the prompt fills the window; otherwise rounds that each archive up to the right boundary under their own entry, until there were five, the estimate is within half the window, no user turn is left or a chunk is not archived |
| MemoryTurns.TracePartition | agent/loop.go:350-431 | over any run of turns the history entries gained since the last /new correspond one to one, in order, to a partition of the messages up to the mark, and each is the model's or the raw entry of its stretch |
| MemoryTurns.TraceUnique | agent/loop.go:350-431 | where a trace begins and what comes in decide every state of it: messages, mark, history, memory and failure count |
| RateLimiter.FixedWindowLimiter.Allow | utils/rate_limit.go:47-70 | with a monotone clock the answer is that of the limiter without garbage collection on the whole history |
| RateLimiter.BurstBound | utils/rate_limit.go:56-69 | no half-open interval one window long holds more than 2 * limit - 1 admissions of a key |
| RateLimiter.BurstBoundReached | utils/rate_limit.go:56-69 | a history with a monotone clock reaches that bound, for every limit and every window of at least two ticks |
| RateLimiter.WindowsApart | utils/rate_limit.go:56-69 | successive windows of a key start at least a window length apart, and k windows admit at most k * limit calls |
| MemoryNotes.RoundTrip | tools/memory_store.go:55-90 | writing and reading gives the entries back exactly when each is clean |
| MemoryTool.WriteStaysTidy | tools/memory_store.go:55-97 | a write keeps the file tidy and the entries around it as they are exactly when its content rejoins from its clean pieces and these are distinct from each other and from the rest |
| MemoryTool.RunTidy | tools/memory_store.go:127-245 | any sequence of calls with clean contents keeps both files tidy |
| ToolLoop.TranscriptIsRounds | agent/loop.go:479-588 | every message list handed to Chat is the initial list followed by whole rounds |
| ToolLoop.RunAgentLoop | agent/loop.go:479-588 | Chat is called at most maxIter times, each time with the transcript so far; the result is the last reply, the error or the limit text, and the names of all calls made |
| ToolLoop.BatchAnswered | agent/loop.go:520-551 | by names and arguments: an MCP call with an earlier equal one is not executed and gets the note and the first such call's result; every other call is executed once, in order, and gets its own |
| CronRuns.AtMostOnce | cron/service.go:186-246 | no one-shot job is started twice by ticks, in any interleaving of adding, enabling, disabling, removing, restarting and ticking with a monotone clock |
| CronRuns.SpentWhenRearmed | cron/service.go:136-158 | when a tick ends or the service starts, an enabled one-shot job is spent exactly when its time has come, started or not, and armed for its time otherwise |
| CronRuns.SpentNeverStarts | cron/service.go:136-319 | once a one-shot job is spent, nothing in any run that follows makes a tick start it |
| CronRuns.CollectedIsStarted | cron/service.go:197-200 | and starts each of them before it ends, whatever comes in between |
| PptxClean.SettleIsLargest | skills/pptx/scripts/clean.py:250-259 | what the loop leaves is exactly the largest part of the package whose files justify each other's presence |
| PptxResult.KeptSlideShows | skills/pptx/scripts/clean.py:241-264 | over the whole script a resource that a listed slide's relationships target stays |
| PptxResult.NothingUnreferenced | skills/pptx/scripts/clean.py:153-218 | in media, embeddings, charts, diagrams, tags, drawings and ink, and of the themes and notes, nothing is left that no relationships file left targets |
| LcmTypes.TruncateFallback | lcm/assembler.go:107-117 | text within the limit is unchanged; a longer one keeps exactly its first 4 * maxTokens bytes, ends with the note, and costs at most nine tokens over the limit |
| LcmTypes.EstimateTokens | lcm/assembler.go:11-14 | a token for every four bytes begun |
| LcmTables.SelectPrefixAligned | lcm/store.go:353-386 | the rows read back for the ids of a log prefix are that prefix, in the same order as the ids |
| LcmTables.IngestAccepts | lcm/store.go:157-189 | the transaction goes through exactly when every role is legal and no seq number is used twice |
| LcmTables.IngestAppends | lcm/store.go:157-189 | a committed transaction appends exactly the given rows to the log, in order |
| LcmTables.RebuildSplices | lcm/store.go:465-496 | on a dense list the row-by-row rebuild is the list with the range cut out and the summary in its place |
| LcmTables.SelectMeaning | lcm/store.go:353-386 | the rows read back are exactly those with one of the ids, each as often as it is there, in seq order |
| LcmStore.Store.GetMaxSeq | lcm/store.go:127-131 | the largest seq of the log, 0 when it is empty |
| LcmStore.Store.IngestMessages | lcm/store.go:157-189 | all rows are appended or, when one is rejected, nothing changes |
| LcmStore.Store.GetContextItems | lcm/store.go:192-246 | the joined items in list order, which for a dense list is ordinal order: messages with their role and content, summaries as the user's with content, kind, depth, count and times |
| LcmStore.Store.GetMessagesByIDs | lcm/store.go:353-386 | returns exactly the rows with the ids, in seq order whatever the order of the ids |
| LcmStore.Store.GetTotalTokenCount | lcm/store.go:284-293 | the sum of the token counts behind the context list |
| LcmStore.Store.ReplaceContextRange | lcm/store.go:389-498 | summary, edges and rebuilt list are committed together, or a constraint fails and nothing changes |
| LcmStore.ItemShowsMessage | lcm/store.go:192-246 | an item that names a message of the log shows that message's role and content |
| LcmPlan.LeafChunkUnique | lcm/compaction.go:46-88 | at most one chunk is right: the longest admissible run of leading messages outside the fresh tail |
| LcmPlan.LeafChunkWithinLimit | lcm/compaction.go:77-88 | the chunk is within LeafChunkTokens exactly when its first message is, and always for a fanout of two or more |
| LcmPlan.OversizedChunk | lcm/compaction.go:77-88 | a valid state with the token counts of its contents, and a fanout of one, in which an oversized first message is compacted alone |
| LcmPlan.LeadingMessagesAligned | lcm/compaction.go:46-64 | in a lossless state the leading message items name the first rows of the log |
| LcmPlan.LeafText | lcm/compaction.go:96-106 | a reply no larger than the chunk is used as it is; after a failed call an input of up to 2048 bytes that fits the chunk is used as it is; any text stored is within the chunk or half the target plus nine |
| LcmPlan.LeafIntervalIsHull | lcm/compaction.go:108-109 | with a clock that does not run backwards a leaf's interval is the hull of its messages' times |
| LcmPlan.LeafChunkCovered | lcm/compaction.go:108-125 | the leaf built from the chunk stands for exactly the items of the range it replaces |
| LcmPlan.SegmentUnique | lcm/compaction.go:153-192 | at most one segment is right: the first run of enough leaves, cut to 8000 tokens but not below the fanout |
| LcmPlan.SegmentCovered | lcm/compaction.go:217-250 | the condensed summary built from a run stands for exactly that run, with its exact time hull and descendant count |
| LcmPlan.LeafInputKeepsContent | lcm/compaction.go:90-94 | the input of a leaf contains time, role and content of every message of the chunk |
| LcmPlan.CondensedText | lcm/compaction.go:209-215 | the reply, and after a failed call the input, cut to 4 * (target / 2) bytes and the note when it is longer |
| LcmPlan.CondensedInputKeepsContent | lcm/compaction.go:194-207 | the input of a condensation contains interval and content of every summary |
| LcmCompaction.CompactionEngine.ScanMessages | lcm/compaction.go:46-64 | the ids in front of the first summary or the fresh tail, with the ordinal range that names the same rows |
| LcmCompaction.CompactionEngine.TrimChunk | lcm/compaction.go:77-83 | rows and ids are cut in step to the longest prefix that fits, at least one |
| LcmCompaction.CompactionEngine.PickLeafChunk | lcm/compaction.go:33-88 | finds the chunk whenever there is one; rows, ids, range and total name the same first messages |
| LcmCompaction.CompactionEngine.PickSegment | lcm/compaction.go:153-192 | finds the segment whenever there is one |
| LcmCompaction.CompactionEngine.Gather | lcm/compaction.go:217-229 | parents in order, exact hull of the intervals, descendant total |
| LcmCompaction.CompactionEngine.LeafPass | lcm/compaction.go:33-130 | no change exactly when there is no chunk; otherwise the chunk gives way to its leaf in front of everything that arrived meanwhile, or a used id leaves only the arrivals; the stored leaf holds the reply, or the front of the chunk's text when that failed or did not shrink |
| LcmCompaction.CompactionEngine.CondensedPass | lcm/compaction.go:138-255 | the segment gives way to a condensed summary in its place, everything else stays, the invariant holds after it |
| LcmAssembler.CutUnique | lcm/assembler.go:47-64 | only one suffix meets that description |
| LcmAssembler.CutMonotone | lcm/assembler.go:47-64 | a larger threshold never drops an item that a smaller one kept |
| LcmAssembler.ItemsToRoleContent | lcm/assembler.go:88-98 | one message per item, in order, summaries as user messages |
| LcmAssembler.SuffixCostMeaning | lcm/assembler.go:38-62 | a suffix costs the estimates of its contents and ten tokens an item |
| LcmEngine.IngestRecords | lcm/engine.go:119-134 | rows numbered after the log are accepted exactly when all roles are legal, and then continue the log one by one with dense seqs |
| LcmEngine.Engine.Bootstrap | lcm/engine.go:104-135 | imports exactly the missing end of the history, by appending only, or nothing when the log is not behind or a role is illegal; a second import changes nothing |
| LcmEngine.ContinuesMeaning | lcm/engine.go:119-134 | each new log row has the next number, its entry's role and content, and its token estimate |
| AgentTurn.CatchUp | agent/loop.go:396-399 | the log gains what the import reads of the session beyond it; afterwards it records the whole session, with the session's contents in the new rows, exactly when it could catch up |
| AgentTurn.CannotCatchUp | agent/loop.go:396-399 | sessions whose gap the import leaves open: one with a role the table does not admit, which only an edited session file has, and one of a million messages |
| Session.Session.GetHistory | session/manager.go:48-65 | the last maxMessages of the whole or of the unconsolidated conversation |
| ConsolidationPlan.RawEntryKeepsContent | tools/consolidator.go:252-257 | a raw archive entry contains the whole content of every message of the chunk |
| ConsolidationPlan.RoundUnique | tools/consolidator.go:304-334 | the description of a round admits one outcome |
| ConsolidationPlan.ConsolidationUnique | tools/consolidator.go:274-336 | that description admits one outcome |
| ConsolidationPlan.ConsolidationArchives | tools/consolidator.go:304-331 | the entries added stand one by one for the stretches between the marks, the mark ends at a user turn, and the session gains only what arrived during the rounds, the last one included that archived nothing |
| ConsolidationPlan.ConsolidationBegins | tools/consolidator.go:275-327 | something is archived exactly when the prompt fills the window, there is a later user turn, and the answer is usable or it is the third failure in a row |
| ConsolidationPlan.ChunksAreMessages | tools/consolidator.go:320-328 | the archived chunks, one after the other, are the messages from the first mark to the last |
| ConsolidationPlan.MessageEstimate | tools/consolidator.go:106-116 | four bytes to a token of role, content and ten more bytes |
| ConsolidationPlan.PromptEstimate | tools/consolidator.go:125-138 | four bytes to a token of the whole prompt, but one token at least |
| ConsolidationPlan.BytesCoverTokens | tools/consolidator.go:106-128 | a message weighs four prompt bytes for each token it counts for by itself, and ten to thirteen more |
| ConsolidationPlan.LineKeepsMessage | tools/consolidator.go:167-178 | an archived line gives time, role, tools and content of its message |
| Consolidator.MemoryConsolidator.ScanBoundaries | tools/consolidator.go:148-163 | the first user turn that removes enough, or the last user turn and the fact that none removes enough |
| Consolidator.MemoryConsolidator.PickConsolidationBoundary | tools/consolidator.go:142-164 | that choice over the first 999999 messages, none exactly when nothing is needed or there is no later user turn |
| Consolidator.MemoryConsolidator.ConsolidateMessages | tools/consolidator.go:181-240 | true exactly when the chunk is safe: one history entry, the model's or on the third failure in a row the raw one; otherwise only the failure count moves |
| Consolidator.MemoryConsolidator.EstimateSessionPromptTokens | tools/consolidator.go:119-139 | the whole-prompt estimate of the unconsolidated history, 0 when the prompt cannot be built |
| Consolidator.MemoryConsolidator.Round | tools/consolidator.go:308-331 | the whole new state after one round: the mark at the first boundary that removes enough, or the last, with the chunk's entry in the history; or one more failure; or nothing |
| MemoryTurns.RunTurns | agent/loop.go:350-431 | the turns take the session and the memory files along a trace from what they were to what they are |
| MemoryTurns.TraceTranscript | agent/loop.go:429-430 | if no one else writes to it, the session holds exactly what the turns since the last /new said |
| RateLimiter.SameAnswer | utils/rate_limit.go:56-83 | a limiter that forgot only finished windows answers as one that never forgets, and stays such |
| RateLimiter.FixedWindowLimiter.CollectGarbage | utils/rate_limit.go:72-83 | forgets, when it is due, exactly the windows begun two window lengths ago, and keeps the refinement |
| RateLimiter.WindowsAdmitFew | utils/rate_limit.go:56-69 | an open window began with its first admission, has at most limit of them, and began a window length after the admission limit before it; so 2 * limit admissions in a row span a window length |
| RateLimiter.RefusedOnlyWhenFull | utils/rate_limit.go:56-69 | a refused call comes when limit calls of its key were admitted within the last window length |
| RateLimiter.KeysIndependent | utils/rate_limit.go:56-69 | what is admitted for a key depends on its own calls alone |
| MemoryNotes.NeighbourSpoiled | tools/memory_store.go:55-90 | an entry that ends where a delimiter begins also changes the entry after it |
| MemoryTool.ReplaceChangesOne | tools/memory_store.go:174-208 | a written replacement changes exactly the one entry that matches, in its place |
| MemoryTool.RemoveDropsOne | tools/memory_store.go:216-240 | a removal drops exactly the one entry that matches, the rest keeps its order |
| MemoryTool.PersistedAsAccepted | tools/memory_store.go:81-90 | what is read back after a write is what the call accepted exactly when its content is clean |
| MemoryTool.DelimiterInContent | tools/memory_store.go:140-162 | content with the delimiter inside is accepted and read back as two equal entries |
| MemoryTool.ExecuteTidy | tools/memory_store.go:127-245 | a call with clean content keeps both files tidy |
| MemoryTool.ExecuteFrame | tools/memory_store.go:127-245 | a failed call changes nothing and no call touches the other file |
| MemoryTool.ReplyMatchesFile | tools/memory_store.go:193-208 | the entries in a successful reply are those in the file exactly when it was not a covered replacement |
| MemoryTool.MemoryNoteStore.ExecuteMemoryTool | tools/memory_store.go:127-245 | reply and both files after any call, unconfigured store, bad target and unknown action included |
| MemoryTool.AddStaysTidy | tools/memory_store.go:140-162 | an add that writes keeps the file tidy exactly under that condition at the end of the list |
| MemoryTool.ReplaceStaysTidy | tools/memory_store.go:164-208 | a replacement that writes keeps the file tidy and the other entries exactly under that condition in its place |
| MemoryTool.CoveredHappens | tools/memory_store.go:199-203 | two entries and a replacement whose reply lists what the file does not hold |
| MemoryTool.NormOfWords | tools/memory_store.go:73-79 | texts that differ only in case and in white space around and between words read the same |
| MemoryTool.AddAccepted | tools/memory_store.go:140-162 | exactly when an add is refused and when it writes |
| MemoryTool.ReplaceAccepted | tools/memory_store.go:164-208 | exactly when a replacement writes: texts not blank, content not blocked, one kind of entry matching, within the limit, not covered |
| MemoryTool.RemoveAccepted | tools/memory_store.go:210-240 | exactly when a removal writes |
| ToolLoop.KeyIdentifiesCall | agent/mcp_tool_dedup.go:11-24 | two MCP calls share a key exactly when name and argument text agree |
| ToolLoop.ExecutedOnce | agent/loop.go:520-551 | of the calls of a batch with the same MCP key exactly one is executed, the first |
| ToolLoop.ExecuteBatch | agent/loop.go:520-551 | the loop gives those answers and executes just as many calls |
| ToolLoop.OnlyMcpHasKey | agent/mcp_tool_dedup.go:11-14 | a call has a key exactly when its name starts with mcp_ |
| ToolLoop.BlockIsBlock | agent/context.go:215-236 | a reply with k calls adds one assistant message with its text and calls, k results with the same ids and names and their answers in the same order, and one user message |
| Cron.ComputeNextRun | cron/service.go:153-184 | a positive next run is later than now; a one-shot job gets its own time or nothing, a positive interval is counted from now, a parsed expression gives its next activation |
| Cron.Service.RecomputeNextRuns | cron/service.go:136-146 | every enabled job is re-armed from now, disabled ones stay |
| Cron.Service.CollectDue | cron/service.go:186-195 | the enabled jobs whose time has come, in list order |
| Cron.Service.RemoveJob | cron/service.go:286-298 | the first job with the id goes, or nothing |
| Cron.Service.EnableJob | cron/service.go:301-319 | the first job with the id is switched and armed or disarmed, and nothing else changes |
| Cron.Service.RecordRun | cron/service.go:215-246 | the first job with the id becomes the copy after its run, off if one-shot and armed again if recurring, or goes if it is a one-shot job to be deleted; nothing else changes |
| Cron.Service.Tick | cron/service.go:186-202 | executes exactly the enabled jobs whose time has come, once each and in list order, records them, and re-arms all |
| Cron.DueMembers | cron/service.go:190-194 | whatever the schedule, a job is collected exactly when it is enabled and its time has come |
| Cron.DueSelected | cron/service.go:190-194 | the collected jobs are those places of the list, each once and in list order |
| CronRuns.StepKeepsInv | cron/service.go:136-319 | every step of every interleaving keeps the scheduler's invariant |
| CronRuns.ArmedAfterTick | cron/service.go:136-146 | after a tick an enabled job is armed for later or not at all |
| CronRuns.RecordedIsSpent | cron/service.go:215-231 | a one-shot job is spent once its run is recorded |
| CronRuns.LostJob | cron/service.go:186-202 | four steps from the start that leave a one-shot job enabled, past its time, never started and spent |
| CronRuns.DueIsCollected | cron/service.go:186-195 | a tick collects exactly the enabled jobs whose time has come |
| PptxClean.ShownSurvives | skills/pptx/scripts/clean.py:106-218 | neither what a slide's relationships target, nor the relationships of such charts, diagrams and drawings, nor what those target is ever removed |
| PptxClean.SettleStable | skills/pptx/scripts/clean.py:250-259 | the loop ends in a package from which a further round removes nothing |
| PptxClean.StableIsReferenced | skills/pptx/scripts/clean.py:153-218 | on exit every file of the scanned folders is the target of a relationships file that is there |
| PptxClean.CleanTwice | skills/pptx/scripts/clean.py:241-264 | a second run changes nothing |
| PptxResult.BehindKeptSlide | skills/pptx/scripts/clean.py:241-264 | so do the relationships of such a chart, diagram or drawing, and the resources they target |
| PptxResult.KeptSlideStays | skills/pptx/scripts/clean.py:60-70 | a slide the presentation lists stays, and so do its relationships |
| PptxResult.UnlistedSlideGoes | skills/pptx/scripts/clean.py:60-70 | a file slide*.xml that it does not list goes, with its relationships |
| PptxResult.TrashGoes | skills/pptx/scripts/clean.py:91-103 | nothing is left in the trash folder |
| PptxResult.PresentationRels | skills/pptx/scripts/clean.py:71-86 | the presentation keeps its relationships, but for those to unlisted slides once a slide goes |
| PptxResult.OtherFilesStay | skills/pptx/scripts/clean.py:241-264 | files outside the cleaned folders stay as they are |
| PptxResult.TargetedStays | skills/pptx/scripts/clean.py:153-218 | what a relationships file that is not itself up for removal targets is not removed |
| PptxResult.OwnerByName | skills/pptx/scripts/clean.py:139-141 | the relationships chart1.xml.rels belong to chart1.xml in the folder above |
| PptxResult.OwnedRelsLeft | skills/pptx/scripts/clean.py:128-150 | relationships of a chart, diagram or drawing are left only if it is there and on a slide |
| PptxResult.NotesRelsLeft | skills/pptx/scripts/clean.py:210-216 | relationships of notes are left only if the notes are there |
| PptxResult.ThemeRelsGo | skills/pptx/scripts/clean.py:190-198 | a theme that goes takes its relationships with it |
| PptxPackage.Package.RemoveOrphanedSlides | skills/pptx/scripts/clean.py:49-88 | removes exactly the slides with names slide*.xml that are not listed, their relationships, and then the presentation's entries for unlisted slides |
| PptxPackage.Package.RemoveOrphanedRelsFiles | skills/pptx/scripts/clean.py:128-150 | removes exactly the relationships of charts, diagrams and drawings that are gone or on no slide |
| PptxPackage.Package.RemoveOrphanedFiles | skills/pptx/scripts/clean.py:171-218 | the phases together remove exactly the unreferenced resources, themes and notes with the relationships that go with them |
| PptxPackage.Package.CleanUnusedFiles | skills/pptx/scripts/clean.py:241-264 | terminates in the settled package and reports exactly the files that are gone; of the slides exactly the listed ones are left |

## Left out

- Two compactions of one conversation that overlap: the ordinals of the second plan can be stale, and nothing is
  claimed for it.
- Other conversations in the same database: only the order of message ids is used, not their values. Conversation
  creation and deletion, `SearchContent` and `DescribeConversation` are not modelled.
- SQL, JSON, XML, files, network, locks, logging and their errors. A transaction is atomic, and its failures are the
  declared constraints; SQLite's limit on bound parameters is not modelled.
- LcmTypes.TruncateFallback: target token counts in the configuration are natural numbers; a negative one would make
  the code slice out of range.
- Integers are unbounded; no count, size or time in the code comes near 64 bits.
- LcmPlan.LeafText: any text the summarizer may return is admitted, and `time.RFC3339` formatting is a parameter.
- LcmAssembler.ItemsToRoleContent: the XML around a summary is a parameter.
- LcmEngine.Engine.IngestTurn: appends of other turns are modelled while it compacts, and not between its other
  statements, where two turns could also draw the same sequence number and one of them fail.
- AgentTurn.RunTurns: turns of one session that do not overlap. /new is taken to succeed on the database; foreign keys
  that restrict the deletion are not modelled.
- Session files (JSONL), `UpdatedAt`, and the counting of user turns since memory tools.
- MemoryTurns.RunTurns: one session at a time with its own consolidator, and without LCM; the entries other sessions
  add to the same HISTORY.md in between are not modelled.
- Consolidator.MemoryConsolidator.Round: the messages of a session only grow during a round; a `Clear` that lands
  inside one is not modelled. The unused second result of the boundary search is left out.
- Consolidator.MemoryConsolidator.EstimateSessionPromptTokens: with LCM on, the prompt holds the assembled context
  instead of the history; only the prompt without LCM is modelled, its fixed part as a byte count.
- RateLimiter.FixedWindowLimiter.Allow: assumes that the clock readings of successive calls do not decrease. The code
  reads the clock before it takes the mutex, so that the mutex does not ensure this.
- MemoryTool.MemoryNoteStore.ExecuteMemoryTool: replies are values, not JSON, without usage figures, and error texts
  carry no numbers; write errors are left out, and so are bytes that are not UTF-8.
- ToolLoop.RunAgentLoop: the wording of the duplicate note, the reminders and the skill feedback, and telemetry, are
  parameters or left out. That a new message cancels the previous run is not claimed.
- CronRuns.AtMostOnce: each operation on the job list is one atomic step. Adding, enabling and removing a job
  (`cron/service.go:264-319`) in fact change the list without taking the mutex, so that they can race with a tick and
  with each other; nothing is claimed for such races. It is about ticks only: running a job by hand is an extra run by
  intent and is left out, as are persistence and the wake-up timer. Ids are taken to be unique.
  Nothing is claimed about fairness: re-arming after every tick can postpone recurring jobs.
- PptxPackage.Package.CleanUnusedFiles: the slides that `presentation.xml` lists are a parameter. `Files` holds the
  targets that the script resolves into the package; a target written as an absolute path is not among them, so that a
  resource which a kept slide names only in that way counts as unreferenced and is removed (`clean.py:119-123` and
  `clean.py:162-166`). A folder is there when a file lies below it (an empty one is not), the order of a folder listing
  is arbitrary, and the update of `[Content_Types].xml` is left out.
