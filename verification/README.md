# Verified model of the agent tooling's stateful parts

This project models seven parts of the repository and proves what they are for. Each part
keeps its own form: objects that update their fields are classes whose methods are proved
against functions on values, expressions are functions, loops are loops.

- **Usage ledger and session statistics** (`SessionStats.dfy`, `StatsAlgebra.dfy`,
  `UsageLedger.dfy`, `LedgerRuns.dfy`, `LedgerStreams.dfy`, `LedgerNumbers.dfy`). Streamed messages record,
  revise, move, replace and close requests. `Step` is the whole decision as a function; the
  methods follow the source's branches. Statistics *agree* with a log of live contributions,
  and that agreement is kept by every run. Costs are exact numbers; price estimation,
  cache counts and model resolution are arbitrary functions or inputs.
- **Tool-argument lexer** (`Json.dfy`, `JsonLexer.dfy`, `JsonPrefix.dfy`, `ArgsStream.dfy`,
  `ToolStream.dfy`, `ToolArguments.dfy`). `Json` is the grammar of sections 2 to 7 of RFC 8259 with Python's
  three extra constants. The incremental buffer, with its memos and its latch, is proved
  equal to one decode of the joined text.
- **Ask-user transcript** (`JsonPrinter.dfy`, `AskUser.dfy`, `Transcript.dfy`,
  `AnswerDisplay.dfy`). An
  unescaped printer and a parser that anchors on known questions.
- **Log ring buffer** (`DebugBuffer.dfy`). Bounded buckets that refine an append-only log.
- **ACP permission loop and chunk accumulator** (`PermissionHistory.dfy`,
  `AcpPermissions.dfy`, `ToolCallChunks.dfy`). Grants and plans as a function of a session's
  history. What a handler does between two `await`s is one `Stretch`; sequences of stretches
  include every interleaving of handlers, and each handler is itself one such sequence.
- **Async run server** (`RunServer.dfy`). A state machine whose steps are the stretches
  between `await`s; `Possible` sequences of steps are all interleavings.
- **Server configuration codec** (`JsonDecoded.dfy`, `ServerConfig.dfy`, `ServerReading.dfy`).
  Printing to and reading from environment variables.

Beside the laws between operations, each part is also stated in plain terms: integer sums
over the messages (`LedgerNumbers`), the texts and values that come out (`ToolArguments`,
`AnswerDisplay`, `ServerReading`), and the new fields themselves in the methods' contracts.

Text is a sequence of code points (`Text.dfy`), so lone surrogates are ordinary elements as
in a Python `str`; opaque identifiers are plain strings.

Six findings where the code and the expectation part:

- The docstring of the transcript renderer names three or more identically worded questions
  as the case it gives up on. The code gives up as soon as two questions *after the first*
  are worded alike, and copes with one later repetition of the first
  (`Transcript.ParseSucceedsIff`).
- Writing an accepted configuration and reading it back can change it: a JSON string with an
  escaped high surrogate followed by a raw low one comes back as one character
  (`ServerConfig.RetractionFails`, with the exact condition in `ServerConfig.Retraction`).
- The deltas reported for a request key add up to the key's entry except where a closing has
  projected an attempt onto a bare message ID: they then add up to what the ID held of its
  own (`LedgerRuns.KeyDeltasTelescope`, `LedgerRuns.ProjectedRowIsNotReported`).
- Retracting reverses recording only when the rows involved are absent or hold a request
  (`StatsAlgebra.RetractUndoesRecordIff`); every reachable state meets this.
- A plan the user refuses is emptied only after a further `await`. A plan update of the same
  session that is checked in between is approved against the refusal, and a plan approved in
  between is lost (`PermissionHistory.ApprovedAfterRefusal`, `CheckWhileClearing`,
  `ApproveWhileClearing`; the exact condition is in `PlanStandsIff` and `PlanIsWantedIff`). A
  session with one handler at a time is never in that position (`OneHandlerIsUndisturbed`).
- The bucket string of a provisional delta separates what the ledger separates except for a
  bare message ID that spells out another key's scope, NUL and ID
  (`LedgerStreams.BucketsCollideIff`).

## Model

| member | source | states |
|---|---|---|
| `SessionStats.SessionStats.RecordRequest` | libs/code/deepagents_code/_session_stats.py:250-311 | the whole new state is `Record` of the old one: totals, cache counters, the kind row and, for a named model, the model row; wall time stays |
| `SessionStats.SessionStats.RetractRequest` | libs/code/deepagents_code/_session_stats.py:313-370 | the whole new state is `Retract` of the old one, rows dropped once they hold no request; wall time stays |
| `SessionStats.SessionStats.MergeFrom` | libs/code/deepagents_code/_session_stats.py:372-404 | the whole new state is `Merge` of the two old ones, also when an object is merged into itself; wall times add up |
| `SessionStats.AddTo` | libs/code/deepagents_code/_session_stats.py:293-311 | field-by-field bookkeeping of one row equals filing the contribution as a row of its own |
| `SessionStats.TakeFrom` | libs/code/deepagents_code/_session_stats.py:344-370 | field-by-field removal with eviction equals unfiling the contribution |
| `SessionStats.MergeInto` | libs/code/deepagents_code/_session_stats.py:388-404 | the row-by-row merge loop yields the keywise sum, in whatever order rows are visited |
| `StatsAlgebra.RecordAgrees` | libs/code/deepagents_code/_session_stats.py:285-311 | recording keeps totals, cache counters and every row equal to the sums over the live contributions; a row exists exactly when some live contribution is filed under it |
| `StatsAlgebra.RetractAgrees` | libs/code/deepagents_code/_session_stats.py:336-370 | retracting any live contribution keeps the same agreement with the remaining ones |
| `StatsAlgebra.CountPositive` | libs/code/deepagents_code/_session_stats.py:293-311 | a row's request count is positive exactly when a live contribution is filed under it |
| `StatsAlgebra.AgreementIsUnique` | libs/code/deepagents_code/_session_stats.py:285-370 | statistics are determined by the live contributions (wall time apart) |
| `StatsAlgebra.KindRowsAddUp` | libs/code/deepagents_code/_session_stats.py:293-299 | the per-kind rows partition the session total |
| `StatsAlgebra.ModelRowsAddUp` | libs/code/deepagents_code/_session_stats.py:300-311 | all per-model rows, listed in any order, add up to what the named models contributed |
| `StatsAlgebra.RetractUndoesRecordIff` | libs/code/deepagents_code/_session_stats.py:313-370 | retracting is the exact inverse of recording, eviction included, if and only if the rows involved are absent or hold a request |
| `StatsAlgebra.RetractUndoesRecord` | libs/code/deepagents_code/_session_stats.py:313-322 | over statistics that agree with some live contributions the inverse law always holds |
| `StatsAlgebra.RetractCommutes` | libs/code/deepagents_code/_session_stats.py:336-370 | retracting one live contribution commutes with recording another |
| `StatsAlgebra.MergeCommutes` | libs/code/deepagents_code/_session_stats.py:372-404 | merging is commutative on totals and rows |
| `StatsAlgebra.MergeAssociates` | libs/code/deepagents_code/_session_stats.py:372-404 | merging is associative on totals and rows |
| `StatsAlgebra.MergeAgrees` | libs/code/deepagents_code/_session_stats.py:372-404 | merging statistics of any two logs, retractions included, gives those of both logs together |
| `StatsAlgebra.MergeAllIsOne` | libs/code/deepagents_code/_session_stats.py:372-404 | any recordings dealt over any number of accumulators and merged equal recording them all in one |
| `LedgerNumbers.TotalsInNumbers` | libs/code/deepagents_code/_session_stats.py:285-370 | statistics that agree with a log hold the number, the plain sums and the cache counts of its live contributions, and a row for exactly the kinds and the named models some live contribution is of, with their number and sums |
| `UsageLedger.FinalizeRecordedRequests` | libs/code/deepagents_code/_session_stats.py:457-486 | the loop over a snapshot of the items leaves `Finalized` of the old ledger: every item closed and every scoped one projected to its bare message ID |
| `UsageLedger.MoveRequestToNamedModel` | libs/code/deepagents_code/_session_stats.py:717-792 | either nothing happens, or the request is retracted, re-recorded with the same counts under the new model and price, stored, and the signed cost change is returned |
| `UsageLedger.FinalizeFromCompleted` | libs/code/deepagents_code/_session_stats.py:795-903 | the chunk-built record is replaced as a whole by the completed message; state and report are those of the decision function |
| `UsageLedger.RecordMessageUsage` | libs/code/deepagents_code/_session_stats.py:906-1119 | the full branching of the source yields exactly the state and the report of `Step`, which decides from the request's previous entry alone; what that entry and report are in numbers is stated by `LedgerNumbers` |
| `LedgerRuns.FinalizedEntries` | libs/code/deepagents_code/_session_stats.py:482-486 | after closing nothing is open, every key also answers under its bare ID, and a bare ID holds the latest entry with that ID |
| `LedgerRuns.OnlyOpenIsReplaced` | libs/code/deepagents_code/_session_stats.py:984-1011 | a finalised entry is never replaced, hence never retracted |
| `LedgerRuns.RunsAreConsistent` | libs/code/deepagents_code/_session_stats.py:906-1119 | an invariant of every run: agreement with the live contributions, distinct live slots for entries, open entries always live |
| `LedgerRuns.LiveIffOwned` | libs/code/deepagents_code/_session_stats.py:469-477 | a key has a live contribution if and only if it is in the ledger and holds its own request: every scoped key, and every bare one no closing has projected an attempt onto |
| `LedgerRuns.Conservation` | libs/code/deepagents_code/_session_stats.py:285-370 | over every run of messages, closings and direct recordings, totals and rows are those of the live contributions; every request a key holds of its own, open or finalised, is one of them, no two share one, and projected rows are none |
| `LedgerRuns.RequestsAreCounted` | libs/code/deepagents_code/_session_stats.py:210-216 | over every run the request count is the number of distinct keys ever recorded plus the direct and ID-less recordings |
| `LedgerRuns.FinalizedStaysLive` | libs/code/deepagents_code/_session_stats.py:448-454 | no finalised request is ever retracted: what it contributed stays live through every further run |
| `LedgerRuns.ReportIsChange` | libs/code/deepagents_code/_session_stats.py:891-903 | one report is exactly the change of its request's entry, priceable-to-unpriceable moves and negative corrections included |
| `LedgerRuns.DeltasTelescope` | libs/code/deepagents_code/_session_stats.py:1108-1119 | over any run the reported deltas add up to what the session totals did |
| `LedgerRuns.KeyDeltasTelescope` | libs/code/deepagents_code/_session_stats.py:1032-1043 | over every run and for every key the reported deltas add up to the key's own entry: the current one, or the last before a closing projected an attempt onto it |
| `LedgerRuns.KeyDeltasMatchIff` | libs/code/deepagents_code/_session_stats.py:469-477 | they add up to the current entry for every scoped key and every unprojected bare one; for a projected one that is the telescoping law read against the current row |
| `LedgerRuns.ProjectedWasReported` | libs/code/deepagents_code/_session_stats.py:482-486 | what a projected row shows was reported, under a closed key with the same message ID |
| `LedgerRuns.ProjectedRowIsNotReported` | libs/code/deepagents_code/_session_stats.py:482-486 | a concrete run after which a projected row holds tokens that nothing was reported for |
| `LedgerStreams.StreamEqualsWhole` | libs/code/deepagents_code/_session_stats.py:1055-1080 | for any chunks of a request, those without usage or counts included, the entry is one request for all of them, shown and priced as one under the model last named, or none when nothing was to show (the sums themselves: `LedgerNumbers.WholeInNumbers`) |
| `LedgerNumbers.StreamInNumbers` | libs/code/deepagents_code/_session_stats.py:570-626 | from the first chunk that shows tokens on, input, output, total and each named detail of the entry are the integer sums over the chunks with counts; what is shown are the positive parts, or the positive part of the total as input when both are zero; price and caches are those of the sum; the model is the one last named, the kind that of the last chunk with counts |
| `LedgerNumbers.WholeInNumbers` | libs/code/deepagents_code/_session_stats.py:570-626 | the whole a stream counts as is just that, and is none exactly when no chunk shows tokens |
| `LedgerNumbers.RequestInNumbers` | libs/code/deepagents_code/_session_stats.py:1055-1105 | the ledger holds just that among any traffic of the round |
| `LedgerNumbers.UnshownRequest` | libs/code/deepagents_code/_session_stats.py:1017-1043 | a request none of whose chunks shows tokens has no entry |
| `LedgerNumbers.TwoChunks` | libs/code/deepagents_code/_session_stats.py:1055-1119 | usages (10, 5, 15) and (0, 7, 7) of one request: the entry holds output 12, the second report is +7, nested details are added |
| `LedgerNumbers.ReportInNumbers` | libs/code/deepagents_code/_session_stats.py:1083-1119 | a report holds the differences of the request's counts and price, its present tokens, its key and whether figures were corrected; without a report at most the model of an unpriced request moved; other requests stay |
| `LedgerNumbers.UnkeyedInNumbers` | libs/code/deepagents_code/_session_stats.py:976-1000 | a message without an ID leaves the ledger alone and counts, if it shows tokens, as a request of its own |
| `LedgerStreams.EntryFollowsOwnMessages` | libs/code/deepagents_code/_session_stats.py:973-1011 | within a round an entry depends on its own messages only, however interleaved with other requests and direct recordings |
| `LedgerStreams.StreamEqualsWholeInterleaved` | libs/code/deepagents_code/_session_stats.py:1055-1105 | streaming equals whole among any interleaved traffic of the round |
| `LedgerStreams.RequestsAreIndependent` | libs/code/deepagents_code/_session_stats.py:906-1119 | from any consistent state, ledger entries and statistics after a round are those of the other events alone with the request, as its own messages leave it, recorded once on top |
| `LedgerStreams.StreamCountsOnce` | libs/code/deepagents_code/_session_stats.py:932-939 | after any history and among any traffic of the round, a stream counts as one recording of its whole |
| `LedgerStreams.CompletionClosesStream` | libs/code/deepagents_code/_session_stats.py:834-889 | after any history, a completed message replaces all its request's chunks amounted to by its own usage, priced under the model it names or else under the one the chunks had settled on; it does so even without counts when a chunk had some |
| `LedgerNumbers.CompletionInNumbers` | libs/code/deepagents_code/_session_stats.py:834-889 | after chunks that showed tokens, a completed message leaves its own usage, closed, shown and priced as such, under the model it names or else the one the chunks had settled on |
| `LedgerNumbers.CompletionAlone` | libs/code/deepagents_code/_session_stats.py:906-1119 | after chunks that showed nothing, it counts exactly when it shows tokens, under its own model |
| `LedgerStreams.CompletionSupersedesStream` | libs/code/deepagents_code/_session_stats.py:810-903 | after any history, a completed message that names a model and has counts leaves everything as if it alone had arrived for its request, whatever chunks came before, whatever came after and whatever else the round brought |
| `LedgerRuns.FinalizedForever` | libs/code/deepagents_code/_session_stats.py:448-454 | a finalised key stays finalised through any run |
| `LedgerStreams.ReplaysAreIgnored` | libs/code/deepagents_code/_session_stats.py:460-478 | after a closing, replaying any recorded request under its scope or under none changes nothing and reports nothing, whatever happened since |
| `LedgerStreams.NewAttemptCounts` | libs/code/deepagents_code/_session_stats.py:952-956 | the same message ID under a new attempt scope is a request of its own |
| `LedgerStreams.BucketsCollideIff` | libs/code/deepagents_code/_session_stats.py:489-516 | two keys share a bucket string if and only if one is a bare ID spelling out the other's scope, NUL and ID |
| `LedgerStreams.BucketsCollide` | libs/code/deepagents_code/_session_stats.py:489-516 | a concrete pair of keys with one bucket string |
| `JsonLexer.ValueLex` | libs/code/deepagents_code/_tool_stream.py:441-466 | the lexer passes over any JSON value without falling below its starting depth, ends where it started and records the value's nesting; a container is open strictly inside |
| `ArgsStream.TopLevel` | libs/code/deepagents_code/_tool_stream.py:441-466 | where the value of a decodable text sits and what the lexer has seen around it |
| `ArgsStream.ContainerStates` | libs/code/deepagents_code/_tool_stream.py:680-703 | the lexer state at every cut of a decodable container text |
| `ArgsStream.PollIsBatch` | libs/code/deepagents_code/_tool_stream.py:657-734 | the completeness test is exact: it answers a value if and only if one decode of the whole text within the depth limit does, and the same one |
| `ArgsStream.DoomedIsHopeless` | libs/code/deepagents_code/_tool_stream.py:503-521 | the latch is sound: where it is set no continuation of the text can ever be decoded |
| `ArgsStream.DoomedIff` | libs/code/deepagents_code/_tool_stream.py:680-721 | a text is given up exactly when it starts with an opening and ends with a closing bracket, its brackets balance or close too much, and it does not decode within the limit |
| `ToolArguments.OneBracketTooMany` | libs/code/deepagents_code/_tool_stream.py:690-703 | a bracket too many after any decodable object or array is given up |
| `ToolArguments.TooDeepOrUnfinished` | libs/code/deepagents_code/_tool_stream.py:690-703 | an object or array nested beyond the limit is given up, and no beginning of a decodable one ever is |
| `ToolArguments.BracketsWithinLimit` | libs/code/deepagents_code/_tool_stream.py:699-703 | as many brackets inside one another as the limit allows are accepted and not one more |
| `ToolArguments.Mismatched` | libs/code/deepagents_code/_tool_stream.py:705-721 | brackets that balance and do not match are given up |
| `ArgsStream.HealthyStream` | libs/code/deepagents_code/_tool_stream.py:667-703 | every cut of an acceptable container text is undecided before the closing bracket and complete after it |
| `ToolStream.ToolCallBuffer.constructor` | libs/code/deepagents_code/_tool_stream.py:284-326 | a buffer built without fields has none set, nothing accumulated and nothing shown or warned about |
| `ToolStream.NewBuffer` | libs/code/deepagents_code/_tool_stream.py:370-388 | a buffer built from its fields is refused exactly when both argument fields are set, and otherwise has scanned its fragments |
| `ToolStream.ToolCallBuffer.ResetFragmentState` | libs/code/deepagents_code/_tool_stream.py:390-409 | clears the lexer, the memos and the latch and adopts the current list |
| `ToolStream.ToolCallBuffer.SyncFragmentState` | libs/code/deepagents_code/_tool_stream.py:411-429 | after scanning what is new (or starting over when the list was rebound or shrank) state, memos and latch describe the joined text; the latch survives only on the same growing list |
| `ToolStream.ToolCallBuffer.ScanFragment` | libs/code/deepagents_code/_tool_stream.py:431-466 | scanning a fragment takes the state of a text to that of the longer text |
| `ToolStream.ToolCallBuffer.MaterializeArgs` | libs/code/deepagents_code/_tool_stream.py:468-476 | the memoised join is the joined text |
| `ToolStream.ToolCallBuffer.ArgsPreview` | libs/code/deepagents_code/_tool_stream.py:478-501 | the piecewise preview is the joined text, or its first `limit` characters when it is longer |
| `ToolStream.ToolCallBuffer.WarnInvalidArgs` | libs/code/deepagents_code/_tool_stream.py:503-521 | logs one bounded preview the first time only and sets the latch |
| `ToolStream.ToolCallBuffer.ResetForNewCall` | libs/code/deepagents_code/_tool_stream.py:523-531 | leaves exactly the fresh state |
| `ToolStream.ToolCallBuffer.Ingest` | libs/code/deepagents_code/_tool_stream.py:533-620 | the whole new state is `Ingested` of the old one, and a whole value and fragments never coexist |
| `ToolStream.IngestMeans` | libs/code/deepagents_code/_tool_stream.py:564-620 | field by field: a different ID, or a name without an ID where both are known, starts anew; only non-empty names and IDs replace; a whole value replaces the fragments, a non-empty fragment is added and replaces a whole value, anything else leaves both |
| `ToolArguments.ConcatAll` | libs/code/deepagents_code/_tool_stream.py:468-476 | the joined text is the fragments one after the other |
| `ToolStream.ReusedIsLikeNew` | libs/code/deepagents_code/_tool_stream.py:576-586 | the same chunk of another call leaves a used buffer, after any history, and a new one in equal states |
| `ToolStream.ToolCallBuffer.StoreNames` | libs/code/deepagents_code/_tool_stream.py:588-591 | only non-empty names and IDs replace the retained ones |
| `ToolStream.ToolCallBuffer.StoreWhole` | libs/code/deepagents_code/_tool_stream.py:600-603 | a whole value replaces the fragments and clears their state |
| `ToolStream.ToolCallBuffer.StoreFragment` | libs/code/deepagents_code/_tool_stream.py:604-616 | a fragment is appended and scanned, and replaces a whole value |
| `ToolStream.ToolCallBuffer.ParseArgs` | libs/code/deepagents_code/_tool_stream.py:622-734 | a text that decodes within the limit to an object answers that very object, one that decodes to anything else the object whose one member `value` is it, any other text nothing; the same wrapping for a whole value; conflicting fields are an error; latch and log move only on a doomed text |
| `ToolStream.ToolCallBuffer.ParseFragments` | libs/code/deepagents_code/_tool_stream.py:660-734 | the memoised, latched decision procedure equals one batch decode |
| `ToolStream.StreamThenParse` | libs/code/deepagents_code/_tool_stream.py:533-734 | any fragments, polled any number of times in between, give in the end the object the whole text decodes to within the limit, or its one-member wrapping, or nothing |
| `ToolArguments.PrintedObject` | libs/code/deepagents_code/_tool_stream.py:533-734 | a printed object, cut and polled at will, comes back as that very object |
| `ToolStream.PollHealthyStream` | libs/code/deepagents_code/_tool_stream.py:622-734 | polled after each fragment of an acceptable container text, a buffer answers nothing before the closing bracket and the value from there on, and neither warns nor logs |
| `AskUser.MultiSelectRoundTrip` | libs/code/deepagents_code/_ask_user_types.py:66-118 | decoding an encoded selection gives it back, for all strings |
| `AskUser.EncodedIsEmptyIff` | libs/code/deepagents_code/_ask_user_types.py:121-155 | an encoded selection counts as no answer if and only if nothing was selected |
| `AnswerDisplay.EmptyIff` | libs/code/deepagents_code/_ask_user_types.py:121-155 | a multi-select answer is empty exactly when it decodes to no picks or to no list of strings, any other exactly when it is whitespace |
| `AnswerDisplay.DecodesTo` | libs/code/deepagents_code/_ask_user_types.py:93-118 | a multi-select answer is read as picks exactly when its JSON is the list of these strings |
| `AskUser.EncodedIsOneLine` | libs/code/deepagents_code/_ask_user_types.py:82-90 | an encoded selection holds no line feed and no carriage return |
| `AskUser.ShowAnswers` | libs/code/deepagents_code/_ask_user_types.py:680-696 | the loop yields `Display`, whose meaning is `AnswerDisplay.DisplayedIff` |
| `AnswerDisplay.DisplayedIff` | libs/code/deepagents_code/_ask_user_types.py:680-696 | something is shown exactly when some multi-select answer decodes to a list of strings; it is the transcript of the same questions with every other answer character for character and those as their picks, one per line, or the placeholder |
| `AskUser.Render` | libs/code/deepagents_code/_ask_user_types.py:612-696 | the loop recovers what `Recover` does, or gives up exactly when it does, and shows what `AnswerDisplay.RenderedIff` says |
| `AnswerDisplay.RenderedIff` | libs/code/deepagents_code/_ask_user_types.py:633-696 | for any transcript that parses: nothing is shown when no multi-select answer decodes; otherwise the same transcript with every answer that is not multi-select or does not decode to a list of strings left character for character |
| `AnswerDisplay.PlaceholdersAreLiteral` | libs/code/deepagents_code/_ask_user_types.py:612-696 | transcripts of placeholders, as of failed or cancelled prompts, are shown literally, whatever the questions |
| `AnswerDisplay.TimeoutIsLiteral` | libs/code/deepagents_code/_ask_user_types.py:463-470 | the transcript of one multi-select question whose prompt timed out is shown literally |
| `AnswerDisplay.FormatMeans` | libs/code/deepagents_code/_ask_user_types.py:568-609 | a block is `Q: `, the question, a line break, `A: ` and the answer or `(no answer)`; further blocks follow after a blank line |
| `Transcript.FormatIsBlocks` | libs/code/deepagents_code/_ask_user_types.py:604-609 | the joined transcript is the chain of blocks, with missing answers replaced and extra ones dropped |
| `Transcript.NoOverlap` | libs/code/deepagents_code/_ask_user_types.py:670-676 | two occurrences of a separator never start at neighbouring positions, so the search from `end + 2` misses none |
| `Transcript.RecoverIsExact` | libs/code/deepagents_code/_ask_user_types.py:656-678 | from any block of a printed transcript on, parsing gives up or recovers exactly the answers |
| `Transcript.NeverMisattributes` | libs/code/deepagents_code/_ask_user_types.py:622-631 | for all questions and arbitrary answer text, parsing the printed transcript gives up or recovers exactly what was printed |
| `Transcript.ParsedReprints` | libs/code/deepagents_code/_ask_user_types.py:633-636 | any text that parses at all is, character for character, the print of what was recovered |
| `Transcript.ParseSucceedsIff` | libs/code/deepagents_code/_ask_user_types.py:633-639 | with one-line questions and answers, parsing succeeds if and only if the questions after the first are pairwise differently worded |
| `Transcript.RepeatedQuestions` | libs/code/deepagents_code/_ask_user_types.py:633-639 | concrete transcripts: of three questions the last two alike are given up on, the first and last alike are not |
| `Transcript.RenderShowsTheAnswers` | libs/code/deepagents_code/_ask_user_types.py:612-696 | the text shown for any printed transcript: when it parses and some answer unpacks, all blocks with the given answers unpacked, otherwise nothing |
| `Transcript.SelectionsAreShown` | libs/code/deepagents_code/_ask_user_types.py:583-590 | encoded selections of any text are recovered, and the text shown has every pick on its own line, or is none when no question is multi-select |
| `DebugBuffer.NewBuffer` | libs/code/deepagents_code/_debug_buffer.py:77-95 | a capacity below one is refused, any other gives an empty buffer |
| `DebugBuffer.InMemoryLogBuffer.Emit` | libs/code/deepagents_code/_debug_buffer.py:97-117 | the record joins the log and is held, each bucket holds the last `capacity` of its own subsequence, and no record at a different level is lost when either level is a named one |
| `DebugBuffer.EmitAgrees` | libs/code/deepagents_code/_debug_buffer.py:97-117 | appending to one bounded bucket keeps every bucket equal to the tail of its own subsequence |
| `DebugBuffer.BucketKeeps` | libs/code/deepagents_code/_debug_buffer.py:110-117 | a record is still in its bucket if and only if fewer than `capacity` later records of that bucket were emitted |
| `DebugBuffer.KeptIff` | libs/code/deepagents_code/_debug_buffer.py:43-45 | a record is kept exactly when fewer than `capacity` later records carry its very level, or, when that is none of the five named ones, any level outside those five |
| `DebugBuffer.OtherLevelsStay` | libs/code/deepagents_code/_debug_buffer.py:64-71 | a record at one level changes nothing for a record at another, one of the two a named one |
| `DebugBuffer.Sorted` | libs/code/deepagents_code/_debug_buffer.py:163 | sorting by sequence number yields an ascending arrangement of the same entries |
| `DebugBuffer.InMemoryLogBuffer.SnapshotRecordsSince` | libs/code/deepagents_code/_debug_buffer.py:128-164 | in emission order, exactly the records numbered from the index on with fewer than `capacity` later ones at their very level (at any unnamed level for an unnamed one), and the total |
| `DebugBuffer.PollingLosesOnlyEvicted` | libs/code/deepagents_code/_debug_buffer.py:131-135 | a reader that always resumes sees an ascending subsequence of the log and misses a record if and only if `capacity` later ones of its bucket came before its next poll |
| `DebugBuffer.PollingByLevel` | libs/code/deepagents_code/_debug_buffer.py:131-135 | it misses a record exactly when, before its first poll after it, `capacity` records of that very level came, or of any unnamed levels for an unnamed one |
| `AcpPermissions.PermissionServer.ApproveFromState` | libs/acp/deepagents_acp/server.py:1168-1209 | the stretch before asking approves exactly when the session's grants or plan allow the action, and changes nothing but a plan with an entry not completed, which becomes the new one |
| `AcpPermissions.PermissionServer.Resolve` | libs/acp/deepagents_acp/server.py:1278-1322 | the stretch after an answer, from whatever state there is by then: its decision and exact error case, its effect on grants and plan; a refused plan stays until it is cleared |
| `AcpPermissions.PermissionServer.ClearPlan` | libs/acp/deepagents_acp/server.py:531-547 | the stretch once the client has been told empties the session's plan and nothing else |
| `AcpPermissions.PermissionServer.RunStretches` | libs/acp/deepagents_acp/server.py:1164-1322 | stretches of any handlers, clearings included, interleaved at will keep the two maps matching the history, which is that of the value model; grants only grow and sessions without a stretch are untouched |
| `AcpPermissions.PermissionServer.HandleAction` | libs/acp/deepagents_acp/server.py:1164-1322 | one action is approved unasked exactly when the session's grants or plan allow it, otherwise put to the user; with anything other handlers do at its awaits, the history is that of one interleaving; the error cases are exact |
| `AcpPermissions.PermissionServer.GrantedAlready` | libs/acp/deepagents_acp/server.py:1184-1209 | the grant check answers exactly whether the grants allow the action |
| `AcpPermissions.PermissionServer.Answered` | libs/acp/deepagents_acp/server.py:1278-1322 | a dismissal yields `reject`, always-allow `approve`, any other selection itself, feedback exactly for a rejected plan; the plan is the approved one or as before; exactly the tool, or the command's types, are granted by always-allow; the error case and whether the plan remains to be cleared are exact |
| `AcpPermissions.PermissionServer.HandleActions` | libs/acp/deepagents_acp/server.py:1164-1322 | one event and one decision per action, in order, among anything other handlers do |
| `AcpPermissions.PermissionServer.HandleAll` | libs/acp/deepagents_acp/server.py:1152-1164 | the same over all interrupts of a session |
| `AcpPermissions.PermissionServer.HandleInterrupts` | libs/acp/deepagents_acp/server.py:1140-1323 | with arbitrary stretches of other handlers at every await, one decision per action in order: `approve` exactly when the state at its check allowed the action or the user selected approve or always-allow, `reject` for a dismissal, else the selected option, feedback exactly for a rejected plan; no decision approves what was neither answered with an approval nor earned by earlier answers; an error has its exact cause; grants only grow; untouched sessions stay |
| `PermissionHistory.RunIsJustified` | libs/acp/deepagents_acp/server.py:1164-1322 | over every interleaving, each approval without asking is one that grants or plan allowed at that moment |
| `PermissionHistory.GrantOrigin` | libs/acp/deepagents_acp/server.py:1283-1296 | a session holds a grant if and only if the user once answered "always allow" to an action that grants it |
| `PermissionHistory.ExecuteIsTyped` | libs/acp/deepagents_acp/server.py:1286-1293 | `execute` as a whole is never granted, only single command types |
| `PermissionHistory.PlanOrigin` | libs/acp/deepagents_acp/server.py:1172-1182 | an unfinished plan goes back to one the user approved and that was not emptied since |
| `PermissionHistory.ApprovalsAreEarned` | libs/acp/deepagents_acp/server.py:1168-1209 | every approval without asking goes back to earlier answers of the same session: a plan approved and not emptied since, an always-allow for the tool, or one for each type of a harmless command; such a plan was not refused since if and only if no refusal waits for its clearing |
| `PermissionHistory.AllowedIff` | libs/acp/deepagents_acp/server.py:1168-1209 | an action is allowed without asking exactly when it updates a plan with an entry not completed, or is a harmless command all of whose types, at least one, or another tool that, was answered always-allow before |
| `PermissionHistory.AllowedIsEarned` | libs/acp/deepagents_acp/server.py:1168-1209 | what the state allows goes back to earlier answers of the same session |
| `PermissionHistory.DecisionTells` | libs/acp/deepagents_acp/server.py:1278-1322 | what the decision for one request tells the graph, from the state at its check and the user's answer |
| `PermissionHistory.PlanStandsIff` | libs/acp/deepagents_acp/server.py:1297-1322 | a plan in force is one the user approved and has not refused since if and only if no refusal of the session still waits for the plan to be emptied |
| `PermissionHistory.PlanIsWantedIff` | libs/acp/deepagents_acp/server.py:531-547 | when either is unfinished, the plan in force is the one the user's answers leave if and only if no refusal waits for its clearing and no clearing came after a later approval |
| `PermissionHistory.CheckWhileClearing` | libs/acp/deepagents_acp/server.py:1297-1300 | any plan update checked between the refusal of an unfinished plan and its clearing is approved against the refusal; after the clearing it is asked about unless `write_todos` was granted |
| `PermissionHistory.ApproveWhileClearing` | libs/acp/deepagents_acp/server.py:1309-1312 | any plan approved between a refusal and its clearing is emptied with it, though the user's answers leave it standing |
| `PermissionHistory.ApprovedAfterRefusal` | libs/acp/deepagents_acp/server.py:531-547 | a concrete interleaving of two handlers in which an update is approved without asking after the user rejected the plan |
| `PermissionHistory.UndisturbedIsWanted` | libs/acp/deepagents_acp/server.py:1297-1322 | as long as nothing of the session runs between a refusal and its clearing, the plan in force is the one the user's answers leave, that while itself apart |
| `PermissionHistory.UndisturbedStands` | libs/acp/deepagents_acp/server.py:1168-1182 | ... and every plan update approved without asking belongs to a plan approved and not refused since |
| `PermissionHistory.OneHandlerIsUndisturbed` | libs/acp/deepagents_acp/server.py:1164-1322 | a session with one handler at a time is undisturbed, however the handlers of other sessions run in between |
| `ToolCallChunks.ToolCalls.Accumulate` | libs/acp/deepagents_acp/server.py:615-635 | a chunk with an id and a name whose index holds no slot or another id's starts a slot with its arguments, any other is appended to its slot if there is one; each slot depends only on the chunks of its own index |
| `ToolCallChunks.ToolCalls.StartComplete` | libs/acp/deepagents_acp/server.py:637-668 | every slot with an id whose arguments decode is started by now, each new call with name and value of such a slot, none twice; started calls keep their value |
| `ToolCallChunks.ToolCalls.ProcessToolCallChunks` | libs/acp/deepagents_acp/server.py:602-668 | both over the chunks of one message, nothing for a message without chunks |
| `ToolCallChunks.SlotHoldsItsCall` | libs/acp/deepagents_acp/server.py:621-635 | a slot holds the concatenation of the argument pieces since its current id took the index over |
| `ArgsStream.ContainerPrefixDecodes` | libs/acp/deepagents_acp/server.py:643-652 | a prefix of an object or array text that decodes at all already decodes to the whole value |
| `ToolCallChunks.HeldIsPrefix` | libs/acp/deepagents_acp/server.py:621-635 | when the chunks stream a call as the pieces of one text, every text ever held under its id is a beginning of it |
| `ToolCallChunks.ToolCalls.StartedCallIsWhole` | libs/acp/deepagents_acp/server.py:643-652 | a call whose chunks stream one container text is started with the value of the whole text |
| `RunServer.RunServer.CreateThread` | examples/async-subagent-server/server.py:221-232 | inserts an empty thread |
| `RunServer.RunServer.BeginCreateRun` | examples/async-subagent-server/server.py:243-247 | the stretch before the body is awaited; false stands for the 404 reply |
| `RunServer.RunServer.FinishCreateRun` | examples/async-subagent-server/server.py:248-296 | interrupting, storing the user message, inserting the run and scheduling its task as one step |
| `RunServer.RunServer.AbortCreateRun` | examples/async-subagent-server/server.py:250-284 | a body that turns out unusable ends the request with what was stored before: nothing, the interrupt, or the user message too |
| `RunServer.RequestMeans` | examples/async-subagent-server/server.py:248-296 | what a finished or aborted request leaves in both tables: the user message at the end of its thread, after an interrupt no snapshot and the runs running on it cancelled, a pending run only when finished; everything else as it was |
| `RunServer.RunServer.StartRun` | examples/async-subagent-server/server.py:171-172 | marks the run running before the agent is awaited |
| `RunServer.RunServer.CompleteRun` | examples/async-subagent-server/server.py:175-191 | as one step the reply is added to the messages of the run's thread, which become its snapshot, and the run is successful; nothing else changes |
| `RunServer.RunServer.FailRun` | examples/async-subagent-server/server.py:192-197 | marks the run failed |
| `RunServer.RunServer.CancelRun` | examples/async-subagent-server/server.py:320-332 | marks a run of that thread cancelled; false stands for the 404 reply |
| `RunServer.StepAppends` | examples/async-subagent-server/server.py:180-189 | one step drops no thread and adds to a thread exactly the message it logs, if any |
| `RunServer.StepKeeps` | examples/async-subagent-server/server.py:169-296 | one step keeps the whole invariant |
| `RunServer.EveryInterleavingKeeps` | examples/async-subagent-server/server.py:169-332 | every interleaving keeps: messages are what was posted and replied; snapshots are prefixes; runs, tasks and suspended requests refer to existing threads; each status fits the executor's phase; a run replies at most once and a successful one has |
| `RunServer.NoRowIsMissing` | examples/async-subagent-server/server.py:180-183 | the missing-row fallback of the executor, and the unguarded read of the handler, never meet a missing row |
| `RunServer.SuccessIsAnswered` | examples/async-subagent-server/server.py:184-190 | a run marked successful has its reply in its thread |
| `RunServer.MessagesAreCounted` | examples/async-subagent-server/server.py:263-275 | the number of messages is the user messages posted plus the executions completed |
| `RunServer.MessagesAreAppendOnly` | examples/async-subagent-server/server.py:263-275 | along every run threads stay and their messages only grow at the end |
| `RunServer.InterruptClears` | examples/async-subagent-server/server.py:250-259 | an interrupting request leaves nothing running on its thread and no snapshot, loses no message and touches no other thread's runs |
| `ServerConfig.ShellListRoundTrip` | libs/code/deepagents_code/_server_config.py:722-726 | a list survives the comma join if and only if its items are non-empty, trimmed and comma-free |
| `ServerConfig.ReadListIsClean` | libs/code/deepagents_code/_server_config.py:806-811 | whatever was written, the items read are non-empty, trimmed and comma-free |
| `ServerReading.ShellListReads` | libs/code/deepagents_code/_server_config.py:806-811 | padded items with commas between are read as the non-empty items without their padding, in order, and as none when there are none |
| `ServerReading.SomePieces` | libs/code/deepagents_code/_server_config.py:806-811 | every text is the text of such items |
| `ServerConfig.IntRoundTrip` | libs/code/deepagents_code/_server_config.py:235-251 | `int` reads back every decimal numeral |
| `ServerReading.IntIff` | libs/code/deepagents_code/_server_config.py:235-251 | a number is read exactly when it is spelt: blanks, a sign or none, digits with single underscores between; anything else counts as absent |
| `ServerConfig.BoolRoundTrip` | libs/code/deepagents_code/_server_config.py:112-128 | both readers of flags read back what was written, whatever the default |
| `ServerConfig.JsonRoundTrip` | libs/code/deepagents_code/_server_config.py:131-153 | a JSON field is read back if and only if its strings hold no unjoined surrogate pair, and never fails to be read |
| `ServerConfig.StrListRoundTrip` | libs/code/deepagents_code/_server_config.py:156-163 | the same for the list of extension paths, written only when not empty |
| `ServerConfig.FsToolsRoundTrip` | libs/code/deepagents_code/_server_config.py:166-220 | an allowlist is read back if and only if it is not empty and names only known tools |
| `ServerConfig.ToolsFailClosed` | libs/code/deepagents_code/_server_config.py:169-176 | a present allowlist variable is never read as the unrestricted default, and what is accepted includes `read_file` |
| `ServerConfig.AppliedIsReadable` | libs/code/deepagents_code/_server_config.py:786-838 | of what `to_env` writes, only the tool allowlist can be refused |
| `ServerConfig.RoundTripIff` | libs/code/deepagents_code/_server_config.py:704-838 | `from_env` recovers what `to_env` wrote if and only if the or-`None` texts are non-empty, the allow-list is clean, the tools are known and the JSON strings hold no unjoined surrogate pair |
| `ServerConfig.AcceptedIsNormal` | libs/code/deepagents_code/_server_config.py:786-838 | whatever the environment held, what is read is already in that normal form, up to surrogate pairs |
| `ServerReading.AcceptedIff` | libs/code/deepagents_code/_server_config.py:652-838 | an environment is accepted exactly when its JSON variables decode to what they should, a present tool list names known tools and `read_file`, and its numbers are in range |
| `ServerReading.FieldsRead` | libs/code/deepagents_code/_server_config.py:786-838 | every field of what is accepted, from its variable: texts as they stand or empty for none, flags true exactly for `true` in any case and with their own default, numbers, JSON, lists, and a sandbox `none` for none |
| `ServerReading.NothingSet` | libs/code/deepagents_code/_server_config.py:786-838 | the configuration read when no variable is set |
| `ServerConfig.Retraction` | libs/code/deepagents_code/_server_config.py:786-838 | writing an accepted configuration and reading it again gives it back if and only if its JSON strings hold no unjoined surrogate pair, which is so whenever the JSON variables hold no raw surrogate |
| `ServerConfig.RetractionFails` | libs/code/deepagents_code/_server_config.py:786-838 | an environment that is accepted but not given back |
| `JsonPrinter.DumpsThenLoads` | libs/code/deepagents_code/_server_config.py:715-717 | printing and decoding JSON gives the value back, exactly without `ensure_ascii` and up to joined surrogate pairs with it |
| `JsonPrinter.ListForm` | libs/code/deepagents_code/_server_config.py:753 | elements are separated by a comma and a space |
| `JsonPrinter.ObjectForm` | libs/code/deepagents_code/_server_config.py:719 | members are printed with a colon and a space, and separated by a comma and a space |
| `JsonPrinter.TextForm` | libs/code/deepagents_code/_ask_user_types.py:90 | how a non-ASCII letter, a line feed and a quote are printed with and without `ensure_ascii` |
| `JsonPrinter.JoinPairsShrinks` | libs/code/deepagents_code/_server_config.py:715-717 | joining leaves a string alone if and only if it holds no high surrogate followed by a low one |
| `JsonDecoded.LoadsThenDumps` | libs/code/deepagents_code/_server_config.py:131-153 | every decoded value can be printed, and reads back if and only if it holds no unjoined pair; a text without raw surrogates never decodes to one |
| `JsonDecoded.RawSurrogateIsJoined` | libs/code/deepagents_code/_server_config.py:131-153 | a concrete text whose two surrogates become one character |

## Left out

- JSON floats stand for their spelling, so neither rounding nor `repr` of a float is modelled.
- A JSON object keeps its members in text order with duplicates; Python's dict keeps the last of each name.
- `json.loads` here has no recursion limit (its `RecursionError` arm) and no limit on the digits of an integer.
- `Ingest`: an argument that is neither a dict nor a string is any other decoded value; the depth limit is a parameter of the buffer.
- `SyncFragmentState`: an edit of the fragment list that keeps its identity and does not shorten it is outside the model, as the source declares it undetected.
- `AddUsage`: nested token details are one flat map of sums, and the failure branch of the usage merge is not modelled.
- `RecordMessageUsage`: price estimation, cache counts and model resolution are parameters; counts are integers, so the filters for booleans and other types are not modelled, and neither are the log lines.
- `RecordRequest`: rows are values keyed by provider and model, so the redundant names stored in a row and sharing of row objects are not modelled.
- `RequestsAreIndependent`: compares ledger entries and statistics, not the insertion order of the dictionary, and speaks of one round, up to the next closing.
- `BucketsCollideIff`: reports carry the ledger key itself; the key's string form is studied on its own, for a `repr` that is injective and free of NUL.
- `MergeCommutes`: wall time is added by `Merge` but plays no part in agreement with the log.
- `Render`: question objects are a text and a type; validation, placeholders for cancelled and failed prompts and widgets are not modelled.
- `Emit`: locks, record formatting and the handler's error path are not modelled.
- `HandleInterrupts`: what comes back for the k-th request, and what other handlers do meanwhile, is a function of its number; titles, options, display text and plan updates sent to the client are not modelled.
- `RunStretches`: takes stretches in any order, so also in orders no handlers produce (an answer nobody asked for); a failure of the client's calls is a clearing that never comes.
- `HandleAction`: command analysis is a pair of arbitrary functions.
- `ProcessToolCallChunks`: updates sent to the client are not modelled; an empty id, name or argument piece counts as absent.
- `CancelRun`: a cancelled status is not final, because the executor overwrites it; the invariant says which statuses can meet which phase.
- `FinishCreateRun`: identifiers are fresh inputs; assistant ids, timestamps and error texts of rows are not modelled, and statements of one stretch are one atomic step.
- `IntOf`: reads ASCII spellings with sign, surrounding blanks and underscores; other decimal digits and the digit limit of Python are not modelled.
- `FromEnv`: every error is one `None`, not the message of the first; the process environment carries text unchanged.
- `Construct`: the errors for booleans in integer fields cannot arise from typed fields.
- Configuration from command-line arguments, path resolution, workspace fingerprints and trust lookup.
- Usage tables, cost formatting, session load and replay in the ACP server, and HTTP routing in the run server.
- Model calls, graph streaming, SQLite, subprocesses, the terminal interface, prompts and the other examples.
