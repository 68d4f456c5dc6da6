# Verified model of the parsing, retrieval and answer pipeline

A Dafny 4.11 model of a study-material service: a Go Backend, a Python Agent that parses documents and answers questions, SQL rollout scripts, and the browser client. `dafny verify dfyconfig.toml` checks all of it.

## What is modelled

**Parse protocol and index rollout.** `Materials.dfy` holds the transactions as functions on the tables, `MaterialStore.dfy` the same transactions on mutable fields, statement by statement. `ParseProtocol.dfy` is a labelled transition system: table rows, any number of Backend workers and Agent attempts (an attempt may outlive the worker that waits for it), crashes, restarts, edits, operator scripts and a clock; every committed transaction is one step, and a log records claims, persists, completions and alerts. `ParseSafety.dfy` states the inductive invariant, `ParseSteps.dfy` proves that each of the 22 actions keeps it, `ParseTheorems.dfy` says what follows for every run, `ParseProgress.dfy` shows that the protocol does finish, after any number of passes, `ParseEdits.dfy` says exactly when an edit is safe from what those passes read, `ParseAttempts.dfy` bounds how often the Agent is asked, and `ParseRollout.dfy` gives the runs from an upload to the index and from any state to an activation. `Effects.dfy` says what every transaction, script and worker step does to the columns, independently of the functions that compute it. Two fields of a row are history that the database does not store: the content as a user last set it, and the number of persists since.

**Document pipeline.** `Text.dfy` and `TextProofs.dfy` (token estimate, paragraphs, stripping), `Chunking.dfy`, `ChunkingProofs.dfy` and `ChunkOverlap.dfy` (the overlap chunker on characters), `Documents.dfy` and `DocumentProofs.dfy` (image deduplication, the records of a document), `ChunkStore.dfy` (rows under their unique keys).

**Retrieval.** `Ranking.dfy` (stable sorting), `Fusion.dfy` (reciprocal-rank fusion through a map of arbitrary iteration order), `Rerank.dfy` (truncation, answer validation, cache, merge), `Expansion.dfy` (parent expansion under two budgets), `Evaluation.dfy` (recall and nDCG).

**Services.** `RateLimit.dfy` (the sliding window and the exact condition for its bound), `RedisScript.dfy` (the Lua script and exactly when it agrees with the window), `Fallback.dfy` (mixing Redis and the windows of Backend processes), `Limiter.dfy` (the in-process limiter, compacted in place over its backing array), `RefreshTokens.dfy` (token families with interleaved requests; the rotation scheme of section 10.4 of RFC 6749).

**Answer stream.** `LineFraming.dfy` (single-line `data:` frames of section 9.2 of the WHATWG HTML standard and their reassembly) and `AnswerStream.dfy` (Agent tokens, Backend relay and persistence, end to end to the browser).

## Assumptions

- Transactions and scripts are serial: each commits as one step.
- A run of the protocol starts right after the migration: legacy-v1 is active, chunks are legacy body chunks, done rows have some, and no worker or attempt is under way (`MigratedRow`, `Initial` in `ParseProtocol.dfy`).
- The Agent's index version is `rag-v2`. Material ids, token hashes and family ids are fresh.
- Cleaning expressions, office readers, stored files, embeddings, language-model calls, JSON coding and the cohort hash are parameters; of cleaning only the final strip is known, and of JSON that decoding undoes encoding and that an encoded event is one line (`LawfulCodecExists` shows that such a coding exists).
- The limiter's process-local windows are empty after a restart and per process; in `Fallback.dfy` every process lifetime has its own number.
- Scores are exact reals. Text is a sequence of code points, and UTF-8 decoding is undone by encoding.
- `max_chunk_tokens` is at least 1; where a theorem asks for `Sensible` settings, the overlap and the short-document limit are also not negative.

## Where code and expectation differ

- The operating manual (docs/rag-v2-production.md:29) calls repeated activation idempotent. At 100 percent it is not: it restarts the fourteen-day clock (`RepeatedActivation`).
- Edits can be lost. An edit is sure to be what the index holds, in every run and whatever stored files and office readers contain, exactly when the material is of a text kind and either has no stored file or no number of cleanings empties the text (`EditIsSafeIff`, `EditIsSureIff`; type, stored file and edit are known before the edit is made). Otherwise a run indexes something else: for a docx or pdf material with a stored file already the first parse (`OfficeEditsAreLost`, `OfficeEditIsLostInARun`), for a text material with a stored file the parse after the pass that emptied the text, which a crash or, for an empty edit, the first parse brings about (`EmptiedEditIsReplaced`).
- A negative overlap setting leaves gaps between slices; any other covers every character (`SlicesCoverUnlessOverlapNegative`).
- The Backend reads the clock before it takes the limiter's lock, so times may reach the window out of order by some d. From a limit of two on, the limit then holds for windows of `width - d` and for none longer; for a limit of one it always holds for the whole width (`BoundHoldsIff`, `WholeWindowIff`).
- Falling back from Redis to n Backend processes can multiply the limit by n + 1 and no more (`FallbackBound`, `FallbackBoundIsReached`); the single limit holds exactly when all requests are decided by Redis, or all by the same process (`OneLimitIff`).
- The Redis key outlives the window by at least a second. The script agrees with the window exactly while drift and skew together stay within that slack (`ScriptAgreesIff`).
- A material budget of zero in parent expansion means no budget, because the cut is an equality test made after an append (`ChosenWithinLimitIff`). The only caller passes three (backend/internal/service/agent.go:277-279).
- While rag-v2 is not active, a parse points a material that has legacy chunks back at them, even one that an activation had moved to rag-v2; it then serves the chunks of the migration, not the edit (`ServedText`, `EditIsServedIff`).
- The Backend's scanner stops at a line of 1 MiB (backend/internal/handler/agent.go:151), and the Agent sends a run of letters as one token, so that a finished answer is saved exactly if every line of the Agent's stream is shorter (`TheWholeAnswerIsSaved`).
- A rerank answer whose score is an integer beyond the range of a double makes `float()` raise; it is refused like any other bad score (`IsScore`, `RemoteItems`).

## Model

| member | source | states |
|---|---|---|
| `ParseTheorems.DoneMaterialsAreServed` | backend/scripts/activate_rag_v2.sql:7-63 | over every interleaving of parsing, edits, crashes and scripts, exactly one index version is active and every done material has a body chunk under its own version |
| `ParseTheorems.RowsOnlyGrow` | backend/internal/repository/parse_tasks.go:30-58 | between any two moments of a run generations never fall, a row moves only forward within a generation, a served material stays served, deleted ids never return |
| `ParseTheorems.QueueEntriesAreFresh` | backend/internal/repository/parse_tasks.go:31-58 | entering the queue raises the generation by exactly one and nothing else changes a generation |
| `ParseTheorems.ChunksChangeOnlyUnderTheirWriter` | agent/rag/orchestrator.py:149-176 | rag-v2 rows change only by a persist of the generation being parsed, legacy rows only by an allowed retirement |
| `ParseTheorems.GenerationsLiveOnce` | backend/internal/service/material.go:338-393 | each generation is claimed once before anything else, persisted only until it is finished, finished once, done only after a persist, alerted about at most once and only after a failure |
| `ParseTheorems.DoneOnlyAfterPersist` | backend/internal/service/agent.go:147-151 | a stale HTTP 200 counted as success is harmless: an effective completion as done follows a persist of the same material and generation, and the row is indexed |
| `ParseTheorems.DoneMaterialsHoldTheLatestEdit` | agent/rag/orchestrator.py:161-177 | a done material's rag-v2 chunks are built from its stored content, which is what one or more parses make of the latest edit |
| `ParseTheorems.ServedText` | agent/rag/orchestrator.py:228-261 | a done material serves, under rag-v2, chunks built from its stored content and, under legacy, the very chunks that the migration left |
| `ParseTheorems.LegacyIsFromTheMigration` | agent/rag/orchestrator.py:169-176 | in every run a row's legacy chunks are those of the start or none |
| `ParseEdits.EditIsSafeIff` | agent/rag/pipeline.py:201-214 | no run, whatever files and readers hold, indexes anything else than the edit, cleaned once per parse, if and only if the type is a text kind and there is no stored file or no number of cleanings empties the text (or the type is never parsed, or cleaning makes all texts alike) |
| `ParseEdits.EditIsSureIff` | agent/rag/pipeline.py:201-214 | any number of parses, in every world that cleans alike, succeeds with the edit cleaned as often if and only if that same condition on type, stored file and edit holds |
| `ParseEdits.PassesAreSureIff` | agent/rag/pipeline.py:201-214 | for each number n of parses: they are sure to yield the edit cleaned n times if and only if each of them starts from the row's own text |
| `ParseEdits.EditIsReadIff` | agent/rag/pipeline.py:201-214 | one parse is sure to start from the row's own text if and only if the type is a text kind and there is content or no stored file |
| `ParseEdits.TextEditsReachTheIndex` | agent/rag/orchestrator.py:161-177 | in every run the content and the rag-v2 chunks of a done material are those of its latest edit, cleaned once per parse, if the edit meets that condition |
| `ParseEdits.EveryPassIsReached` | backend/internal/repository/parse_tasks.go:30-58 | from every state, for every n, a run after an edit whose n parses all commit, all but the last followed by a crash, ends done with exactly what n parses make of the edit |
| `ParseEdits.EmptiedEditIsReplaced` | agent/rag/pipeline.py:205-209 | for every k: when k parses, and no fewer, empty the edit, a run ends done with the stored file's cleaned text |
| `ParseEdits.TextEditsSurvive` | agent/rag/pipeline.py:201-206 | any number of parses of a text that stays readable is that number of cleanings |
| `ParseEdits.OfficeEditsAreLost` | agent/rag/pipeline.py:207-214 | for a stored office document every edit parses to the same content |
| `ParseTheorems.ScriptsNeverBreakTheUniqueIndex` | backend/migrations/0008_rag_v2.sql:78-79 | step of the rollout theorems: no activation or rollback is aborted by the one-active index; only the two guards of the activation can stop it |
| `ParseTheorems.LastActivationWins` | backend/scripts/activate_rag_v2.sql:27-63 | after two activations rows and version states are those of the second alone |
| `ParseTheorems.CohortsGrow` | backend/scripts/activate_rag_v2.sql:48-62 | read off the assignment: of two assignments by the script itself, the larger percentage gives rag-v2 to every material to which the smaller one does |
| `ParseTheorems.RepeatedActivation` | backend/scripts/activate_rag_v2.sql:31-45 | repeating a percentage changes no material, and changes nothing at all exactly when it is not 100 or the time is the same |
| `ParseTheorems.RollbackUndoesActivation` | backend/scripts/rollback_rag_v2.sql:2-11 | after any activation a rollback makes legacy active, returns every material with legacy chunks to them and keeps all served |
| `ParseTheorems.RetiringChangesNothingServed` | backend/scripts/retire_legacy_rag.sql:2-15 | deleting the legacy chunks changes no material's visible chunks |
| `ParseTheorems.RetiredOnlyAfterAFortnight` | backend/scripts/retire_legacy_rag.sql:3-12 | when retirement goes through, rag-v2 was active in every state of the run within the fourteen days before |
| `ParseTheorems.StepLogs` | backend/internal/service/material.go:337-393 | every action logs at most one event, and one that may come next in the life of its generation |
| `ParseSteps.RunKeeps` | agent/rag/orchestrator.py:86-269 | the invariant of rows, log, workers and attempts holds in every state of every run |
| `ParseSteps.StepKeeps` | backend/internal/service/material.go:338-434 | every action of users, workers, attempts and scripts keeps the invariant |
| `ParseSteps.PersistKeeps` | agent/rag/orchestrator.py:149-269 | a persist keeps the invariant; for a generation no longer held it is answered as stale or missing and no table or log entry changes, otherwise it is logged and leaves the row indexed and served |
| `ParseSteps.ClaimKeeps` | backend/internal/repository/parse_tasks.go:74-95 | a claim hands the row's own payload to one worker per generation |
| `ParseSteps.FinishKeeps` | backend/internal/repository/parse_tasks.go:160-179 | a completion keeps the invariant; for a generation no longer held it changes no table and logs nothing, otherwise it sets the status, as done only on an indexed row whose generation was persisted |
| `ParseSteps.HeldIsOpen` | backend/internal/service/material.go:384-392 | step of `GenerationsLiveOnce`: a generation still held was neither finished nor alerted about |
| `ParseSteps.EditIsQuiet` | backend/internal/repository/parse_tasks.go:98-157 | step of `RunKeeps`: an edit keeps all rows sound and completes nothing; changed content opens the next generation in the queue, any other patch changes nothing |
| `ParseSteps.ActivateIsQuiet` | backend/scripts/activate_rag_v2.sql:1-64 | step of `RunKeeps`: activation keeps all rows sound and served, whatever was served before |
| `ParseSteps.RetireRow` | backend/scripts/retire_legacy_rag.sql:13-14 | step of `RetiringChangesNothingServed`: with rag-v2 active no row still depends on its legacy chunks |
| `ParseSteps.ProcessedIsBuilt` | agent/rag/pipeline.py:425-443 | a processed document's body records are those of its own text and only other signals follow |
| `ParseProgress.QueuedMaterialsCanFinish` | backend/internal/service/material.go:338-374 | from any state seven steps bring a queued material with readable text to done with its own chunks |
| `ParseProgress.OfficeEditIsLostInARun` | agent/rag/pipeline.py:207-212 | a run in which an edited stored docx ends as done with the old file's text |
| `ParseProgress.EditIsServedIff` | agent/rag/orchestrator.py:228-261 | after an edit and an undisturbed parse the new chunks are served if rag-v2 is active or there are no legacy chunks, and otherwise the legacy ones |
| `ParseProgress.AnyPassCanBeTheLast` | backend/internal/repository/parse_tasks.go:30-95 | a queued material can be parsed, crash and be recovered any number of times before it is done, with what that many parses make of its content |
| `ParseRollout.CreationIsIndexed` | backend/internal/service/material.go:166-190 | from every state an upload followed by an undisturbed parse is done and on rag-v2, with content and chunks of exactly the text that its own type, content and stored file name |
| `ParseRollout.UploadedTextIsIndexed` | agent/rag/pipeline.py:205-206 | for a text kind that is the content as it was given |
| `ParseRollout.RolloutCanStart` | backend/scripts/reindex_rag_v2.sql:2-13 | from every state whose rows can be read, a restart, a reindex, retries and parses lead to one in which an activation goes through at 10, 50 and 100 percent |
| `ParseAttempts.AtMostThreeAttempts` | backend/internal/service/material.go:396-432 | in every run the Agent is asked at most three times for each generation of a material, whoever asks |
| `ParseWorker.ParseWithRetry` | backend/internal/service/material.go:395-434 | the verdict is the last attempt's outcome; earlier attempts failed and were not cancelled; it stops at success, cancellation or the third try |
| `Effects.TextIsRead` | agent/rag/pipeline.py:204-209 | a text kind, in any case and behind any dots, or a missing type reads the row, and the stored file only when the row is empty |
| `Effects.OfficeIsRead` | agent/rag/pipeline.py:207-214 | docx and pdf read the stored file, or the row when there is none; any other kind is refused |
| `Effects.CleaningStrips` | agent/rag/pipeline.py:80-92 | after the regular expressions cleaning takes white space from the two ends only |
| `Effects.CreationStores` | backend/internal/service/material.go:166-190 | under a fresh id the new row holds the given content, type and key, waits at generation one, and no other row changes |
| `Effects.EditStores` | backend/internal/repository/parse_tasks.go:98-157 | other content than stored is stored and queued under the next generation; any other patch leaves the row as it is |
| `Effects.ClaimTakes` | backend/internal/repository/parse_tasks.go:74-95 | exactly a waiting row is claimed, and the task carries what the row holds |
| `Effects.CompletionSets` | backend/internal/repository/parse_tasks.go:160-179 | exactly a row being parsed at that generation gets the verdict and its message |
| `Effects.RetryQueuesTheFailed` | backend/internal/repository/parse_tasks.go:31-43 | exactly a failed row is queued, and keeps its document |
| `Effects.RecoveryQueuesTheParsing` | backend/internal/repository/parse_tasks.go:46-58 | exactly the rows left parsing are queued, all others stay as they are |
| `Effects.PersistStores` | agent/rag/orchestrator.py:149-261 | exactly a row being parsed at the task's generation gets chunks and content of the document, and is visible under rag-v2 unless it has legacy chunks and rag-v2 is not active |
| `Effects.ActivationGuards` | backend/scripts/activate_rag_v2.sql:3-26 | an activation goes through exactly for 10, 50 or 100 percent when every row is done with a rag-v2 body chunk |
| `Effects.ActivationSets` | backend/scripts/activate_rag_v2.sql:27-63 | a row is on rag-v2 exactly if all are, its cohort is below the percentage, or it has no legacy body chunk; no other column changes |
| `Effects.RollbackSets` | backend/scripts/rollback_rag_v2.sql:2-11 | exactly the rows with legacy chunks return to them, and legacy is the active index |
| `Effects.RetirementDeletes` | backend/scripts/retire_legacy_rag.sql:3-15 | exactly after fourteen days of rag-v2 the legacy chunks are deleted, and nothing else |
| `Effects.ReindexQueuesTheUnindexed` | backend/scripts/reindex_rag_v2.sql:2-13 | a row is queued under the next generation if and only if no rag-v2 chunk of it is a body chunk, and stays as it is otherwise |
| `Effects.RequestStartsAnAttempt` | backend/internal/service/material.go:405-416 | a worker sends up to three requests, each with its task |
| `Effects.AnswersAreTaken` | backend/internal/service/agent.go:140-151 | parsed and stale answers are successes, anything else is a failure that may be tried again |
| `Effects.VerdictsAreFinal` | backend/internal/service/material.go:351-393 | a verdict completes the task if it is still held, and leads to an alert exactly when it failed a task that was |
| `Effects.EarlyCheck` | agent/rag/orchestrator.py:93-109 | the Agent goes on exactly for a row being parsed at the generation of the request |
| `Effects.ParsingReadsTheRequest` | agent/rag/orchestrator.py:111-148 | parsing works on what the request carried, and fails when nothing can be read or a model service fails |
| `Effects.TableActions` | backend/internal/repository/parse_tasks.go:31-157 | users, recovery and scripts act on the tables alone, each by its own transaction, and a script that raises changes nothing |
| `Effects.ClaimsStartWorkers` | backend/internal/service/material.go:337-350 | a claim that succeeds starts a worker at its task |
| `MaterialStore.Store.CreateMaterial` | backend/internal/service/material.go:166-190 | does what `CreationStores` says and returns the fresh id |
| `MaterialStore.Store.RequeueFailedParse` | backend/internal/repository/parse_tasks.go:31-43 | requeues a failed row under the next generation and reports whether it did |
| `MaterialStore.Store.RequeueInterruptedParses` | backend/internal/repository/parse_tasks.go:46-58 | requeues exactly the rows left parsing and returns their number |
| `MaterialStore.Store.ClaimParseTask` | backend/internal/repository/parse_tasks.go:74-95 | claims a pending row and returns its payload, or changes nothing |
| `MaterialStore.Store.UpdateMaterial` | backend/internal/repository/parse_tasks.go:98-157 | only changed content requeues; a patch without content changes no modelled column |
| `MaterialStore.Store.FinishParseTask` | backend/internal/repository/parse_tasks.go:160-179 | completes a task only for the generation still held |
| `MaterialStore.Store.PersistParse` | agent/rag/orchestrator.py:149-269 | missing, stale or committed, with chunks, content and visible version of the row |
| `MaterialStore.Store.ActivateRagV2` | backend/scripts/activate_rag_v2.sql:1-64 | guards, two version updates and the cohort assignment, all or nothing |
| `MaterialStore.Store.RollbackRagV2` | backend/scripts/rollback_rag_v2.sql:2-11 | version updates and the return to legacy, never aborted |
| `MaterialStore.Store.RetireLegacyRag` | backend/scripts/retire_legacy_rag.sql:2-15 | guarded deletion of the legacy chunks |
| `MaterialStore.Store.ReindexRagV2` | backend/scripts/reindex_rag_v2.sql:2-13 | does what `ReindexQueuesTheUnindexed` says, row by row |
| `ChunkStore.Tables.Persist` | agent/rag/orchestrator.py:169-227 | deletes and inserts never violate a unique key or the reference from chunks to assets; afterwards the material's rows are the document's, each image chunk refers to the asset row of its own digest, and all other rows are unchanged |
| `ChunkStore.Tables.PersistMany` | backend/migrations/0008_rag_v2.sql:32-66 | any number of persists at any generations leaves valid keys and references, and the last document's chunk and asset rows |
| `ChunkStore.Tables.InsertAssets` | agent/rag/orchestrator.py:177-200 | stored assets get consecutive fresh ids, unstored ones none |
| `ChunkStore.OnlyStoredAssets` | agent/rag/orchestrator.py:178-205 | exactly the stored images get an asset row, with consecutive ids and at the generation of the persist |
| `ChunkStore.PersistRefines` | agent/rag/orchestrator.py:149-227 | if the chunk table holds what the material rows say, under both versions and for all materials, it does so again after the deletes and inserts of a persist |
| `ChunkStore.LaterPersistReplaces` | agent/rag/orchestrator.py:169-176 | the deletes of a later persist remove every chunk row that an earlier one inserted |
| `ChunkStore.ReferencesStay` | backend/migrations/0008_rag_v2.sql:65-66 | after the deletes and inserts every chunk row that names an asset names a row of its own material |
| `Text.EstimateAdditive` | agent/core/utils.py:31-34 | the token estimate is additive over the paragraph break |
| `Text.EstimatePrefixMonotone` | agent/core/utils.py:31-34 | a longer prefix never has a smaller estimate |
| `Text.EstimateWithinLength` | agent/core/utils.py:31-34 | the estimate is at most the number of characters |
| `TextProofs.EstimateCounts` | agent/core/utils.py:31-34 | the estimate is the number of CJK characters and of maximal runs of [A-Za-z0-9_./:-] |
| `TextProofs.StripCuts` | agent/rag/pipeline.py:314 | stripping leaves the stretch between the white space at the two ends |
| `TextProofs.ParagraphsAreCutAtBreaks` | agent/rag/pipeline.py:314 | a document is its paragraphs with white space around them, and two of them are always parted by two newlines with only white space between |
| `TextProofs.ParagraphsHaveNoBreak` | agent/rag/pipeline.py:314 | no paragraph contains such a break, is blank, or has white space at its ends |
| `TextProofs.SplittingUndoesJoining` | agent/rag/pipeline.py:314-318 | joined paragraphs split into the same paragraphs again |
| `Text.ParagraphsKeepInk` | agent/rag/pipeline.py:314 | splitting into stripped paragraphs keeps every character that is not white space |
| `ChunkingProofs.ChunksTileTheParagraphs` | agent/rag/pipeline.py:314-346 | the new parts of the chunks follow each other from the first to the last character without gap or repeat, and what a chunk repeats is the end of the one before |
| `ChunkingProofs.ChunksRebuildTheDocument` | agent/rag/pipeline.py:318-346 | dropping each overlap rebuilds the paragraphs exactly |
| `ChunkingProofs.ChunksKeepInk` | agent/rag/pipeline.py:314-346 | every character of the document that is not white space reaches the chunks exactly once |
| `ChunkingProofs.ChunksFitTheBudget` | agent/rag/pipeline.py:316-346 | every chunk has at most max plus overlap tokens, and a window ends only where the next paragraph would not fit |
| `ChunkingProofs.OverlapIsLongest` | agent/rag/pipeline.py:322-331 | the overlap is the longest run of last paragraphs within the overlap budget |
| `ChunkOverlap.ChunksOverlapAsSet` | agent/rag/pipeline.py:316-346 | of every two chunks in a row: a window begins its new text where the one before ends and repeats the longest run of its last paragraphs within the overlap budget; slices lie maxTokens less min(overlap, maxTokens - 1) apart; nothing is repeated from or into a sliced paragraph |
| `ChunkOverlap.WindowsSplitAgain` | agent/rag/pipeline.py:318 | the text of a window splits into exactly its paragraphs |
| `ChunkingProofs.ShortIsOneRecord` | agent/rag/pipeline.py:301-313 | a document within both short limits is one record that holds it verbatim |
| `ChunkingProofs.LongIsItsChunks` | agent/rag/pipeline.py:347-371 | any other document has exactly one record for each chunk that is not blank, with its position, text and estimate |
| `ChunkingProofs.SlicesCoverUnlessOverlapNegative` | agent/rag/pipeline.py:332-341 | the slices of an oversized paragraph cover every character if and only if the overlap setting is not negative |
| `ChunkingProofs.WindowsAreNotBlank` | agent/rag/pipeline.py:349-351 | only slices can be dropped as blank when records are built |
| `ChunkingProofs.NumberedInOrder` | agent/rag/pipeline.py:347-371 | each record carries its chunk's position, in increasing order |
| `ChunkingProofs.BodyRecordsNonEmpty` | agent/rag/pipeline.py:300-371 | every cleaned document has at least one body record and no number twice |
| `Chunking.ChunkBody` | agent/rag/pipeline.py:300-371 | the loops yield the records of the spans that the chunking theorems are about |
| `Chunking.SliceParagraph` | agent/rag/pipeline.py:336-341 | the slicing loop terminates and yields the specified slices |
| `Chunking.OverlapOf` | agent/rag/pipeline.py:322-331 | the backward loop finds the overlap and its token sum |
| `Documents.DeduplicationCollects` | agent/rag/pipeline.py:390-415 | one asset per digest, none lost or added, each with every heading it stood under once and in order |
| `Documents.Deduplicate` | agent/rag/pipeline.py:390-415 | the dictionary loop computes that collection |
| `Documents.ProcessedIsStorable` | agent/rag/pipeline.py:425-443 | distinct (kind, index) keys, at least one body record, distinct digests, asset numbers in range |
| `DocumentProofs.DocumentHolds` | agent/rag/pipeline.py:374-450 | a document holds its body records, its summary, every question and the text of every image that has some, each with its own text, and nothing else |
| `DocumentProofs.AssetsAreFirstFindings` | agent/rag/pipeline.py:390-415 | assets stand in the order in which digests first occur, with page, caption, text and storage of that first image |
| `DocumentProofs.HeadingsInOrder` | agent/rag/pipeline.py:390-415 | an asset keeps every heading of its digest once, in document order |
| `DocumentProofs.ImageText` | agent/rag/pipeline.py:430-443 | the text of an image is its caption and recognised text on two lines, stripped |
| `Documents.ProcessDocument` | agent/rag/pipeline.py:374-450 | the record-building loops yield the document that these theorems are about |
| `Ranking.SortDescSound` | backend/internal/repository/rag.go:188 | sorting is descending, stable and a permutation |
| `Ranking.StableSortIsUnique` | backend/internal/repository/rag.go:188 | a stable descending sort has one possible result |
| `Fusion.FusedIs` | backend/internal/repository/rag.go:163-182 | the fused score is 1 / (60 + rank) from each search that found the chunk, and the entry keeps each search's own score |
| `Fusion.Fuse` | backend/internal/repository/rag.go:163-192 | for any map iteration order the result is a ranking: distinct ids, exact scores, sorted, cut at the limit, nothing better left out |
| `Fusion.EvaluatorFuse` | agent/evaluate.py:152-158 | the evaluator's result is one of the rankings the Backend may return |
| `Fusion.EveryRankingIsPossible` | backend/internal/repository/rag.go:183-191 | the rankings are exactly the results of some iteration order |
| `Fusion.BothComeFirst` | backend/internal/repository/rag.go:15-21 | in every ranking the chunks found by both searches stand before all found by one |
| `Fusion.BothBeatOneIff` | backend/internal/repository/rag.go:15-21 | two finds outweigh one whatever two searches of up to n rows return if and only if n is at most 61 |
| `Fusion.LexicalRowCollected` | backend/internal/repository/rag.go:171-182 | one more lexical row keeps the map equal to the exact fused entries of the rows read so far |
| `Rerank.TruncateDocument` | agent/rag/retrieval.py:165-177 | the longest prefix within the token limit and four times as many characters |
| `Rerank.RemoteItems` | agent/rag/retrieval.py:196-225 | an answer is accepted if and only if it is long enough and its first entries name distinct candidates with finite scores, an integer score within the range of a double |
| `Rerank.AcceptedIsCacheable` | agent/rag/retrieval.py:180-193 | an accepted answer passes the cache check exactly when its ids are distinct, as they are for distinct candidates |
| `Rerank.NamedEntries` | agent/rag/retrieval.py:205-222 | what an entry must hold, and that relevance_score counts before score |
| `Rerank.ValidCachedIff` | agent/rag/retrieval.py:180-193 | the cache check: an undegraded, complete answer of this model for distinct candidates of this request with finite scores |
| `Rerank.Rerank` | agent/rag/retrieval.py:228-276 | a valid cached answer is returned as it is; otherwise an acceptable remote answer is returned item by item and stored; the result is degraded if and only if there are candidates and neither exists or no model is configured, and then it is the local order and nothing is stored |
| `Rerank.MergeRerank` | backend/internal/service/agent.go:254-269 | the map, filter and stable sort of the Backend compute the merge below |
| `Rerank.MergeSortsTheNamed` | backend/internal/service/agent.go:254-269 | the merge holds exactly the named candidates with their scores, best first, ties in fused order |
| `Rerank.FallbackKeepsTheFusedOrder` | agent/rag/retrieval.py:157-162 | a degraded rerank yields exactly the first eight fused candidates in their order |
| `Expansion.ExpandVisibleContext` | backend/internal/repository/rag.go:237-319 | the nested loops with counter and flag select exactly the taken trials of the flat specification |
| `Expansion.ExpansionIsSound` | backend/internal/repository/rag.go:276-319 | both budgets kept with exact sums, greedy-maximal at the cost tried, at most one image per material on a fitting page, only chosen materials and at most as many as a positive budget of materials allows |
| `Expansion.ExactlyTheEligibleAreTried` | backend/internal/repository/rag.go:273-293 | nothing is passed over: a row is tried if and only if it is a body row of a chosen material and is its only one, or the first hit of the material is not a body chunk, has the same heading, or lies at most one position away |
| `Expansion.EveryTrialInFull` | backend/internal/repository/rag.go:292-316 | an image goes with a chunk exactly if it fits its page and no taken chunk carries it, adds its text, asset, page and tokens, and the chunk is taken exactly if it still fits both budgets |
| `Expansion.ChosenInRankOrder` | backend/internal/repository/rag.go:240-251 | the chosen materials are the first ones in rank order, each once, with zero for no limit |
| `Expansion.TrialsFitTheBudget` | backend/internal/repository/rag.go:308-316 | budgets, maximality and one image per material for any list of offered chunks |
| `Expansion.ChooseMaterials` | backend/internal/repository/rag.go:240-251 | the first materials in rank order with the best hit of each |
| `Expansion.ChosenWithinLimitIff` | backend/internal/repository/rag.go:242-250 | no more materials are chosen than the budget says if and only if the budget is positive or nothing was retrieved |
| `Evaluation.NdcgAtMostOne` | agent/evaluate.py:189-197 | nDCG is at most one, and one if and only if the first min(k, expected) positions are all hits |
| `Evaluation.RecallIsMonotone` | agent/evaluate.py:190-191 | recall lies in [0, 1] and grows with k |
| `Evaluation.UniqueMaterialsAreDistinct` | agent/evaluate.py:185-186 | the rankings that the metrics see hold each material once, at the place of its first hit, and lose none |
| `RateLimit.AtMostLimitPerWindow` | backend/internal/service/rate_limiter.go:84-100 | in any run at most the limit is admitted in every window, shortened by how far the clock may fall back |
| `RateLimit.RefusedOnlyAtTheLimit` | backend/internal/service/rate_limiter.go:94-97 | a request is refused only if the limit was admitted since its window began |
| `RateLimit.DecidesByTheWholeHistory` | backend/internal/service/rate_limiter.go:87-97 | for a clock that never falls, forgetting old times never changes a decision |
| `RateLimit.BoundHoldsIff` | backend/internal/service/rate_limiter.go:74-100 | over all runs whose clock falls back by at most d, a window of v milliseconds never admits more than the limit if and only if v is at most the width (limit one) or the width less d (greater limits) |
| `RateLimit.WholeWindowIff` | backend/internal/service/rate_limiter.go:74-100 | the whole window is bounded exactly for a clock that never falls, a limit of one, or no width |
| `RateLimit.BurstOverfills` | backend/internal/service/rate_limiter.go:74-100 | for every limit from two on and every drift, a run that overfills any longer window |
| `RedisScript.ExpiryInSeconds` | backend/internal/service/rate_limiter.go:25 | the key outlives the window by one second and what is missing to whole seconds |
| `RedisScript.ScriptAgreesIff` | backend/internal/service/rate_limiter.go:16-27 | the script with its expiry decides every call of every run since the epoch like the window if and only if drift and skew together are at most what the key outlives the window by |
| `RedisScript.KeyHoldsTheWindow` | backend/internal/service/rate_limiter.go:16-27 | within that slack the sorted set holds exactly what the window remembers, although the server may have dropped it in between |
| `Fallback.WhoRemembers` | backend/internal/service/rate_limiter.go:68-82 | a request whose reply is lost is counted by Redis and decided by the process; a process remembers exactly what it decided |
| `Fallback.FallbackBound` | backend/internal/service/rate_limiter.go:68-82 | however requests fall back, n process lifetimes and Redis let at most n + 1 times the limit through per window, shortened by the drift |
| `Fallback.FallbackBoundIsReached` | backend/internal/service/rate_limiter.go:68-82 | for every limit, every width and every n some run in order reaches that bound |
| `Fallback.OneLimitIff` | backend/internal/service/rate_limiter.go:68-82 | the single limit holds for all runs in order over the permitted routes if and only if all requests are decided by Redis, or none is and there is one process, or limit or width is zero |
| `Limiter.Slice.Compact` | backend/internal/service/rate_limiter.go:87-93 | filtering through the shared backing array keeps exactly the recent times in order |
| `Limiter.RateLimiter.Allow` | backend/internal/service/rate_limiter.go:68-100 | a reply of Redis decides and leaves every window alone; without one the request decides on its own key's window and leaves the others alone |
| `Limiter.RateLimiter.constructor` | backend/internal/service/rate_limiter.go:38-61 | a service with a positive limit is decided at it, every other one at the chat limit or, without one, at twenty |
| `RefreshTokens.FamiliesAreChains` | backend/internal/repository/auth_tokens.go:40-72 | in every run a family's tokens are one acyclic chain through replacedBy and only its end is unused |
| `RefreshTokens.RotatedAtMostOnce` | backend/internal/repository/auth_tokens.go:43-71 | no token is rotated twice, however refreshes interleave |
| `RefreshTokens.DeadForever` | backend/internal/repository/auth_tokens.go:52-63 | from any sound state, a revoked family never has a usable token or a new token again |
| `RefreshTokens.RevokedFamiliesStayDead` | backend/internal/repository/auth_tokens.go:52-86 | in every run, once one token of a family is revoked, no token of it is usable at any later moment and its chain stays as it is |
| `RefreshTokens.ReplayKills` | backend/internal/repository/auth_tokens.go:52-60 | finishing a refresh of a used token revokes its whole family |
| `RefreshTokens.LogoutKills` | backend/internal/repository/auth_tokens.go:82-86 | a logout revokes the family whatever happened since its look-up |
| `RefreshTokens.SecondRefreshKills` | backend/internal/service/auth.go:113-131 | of two concurrent refreshes of one token the second ends the family |
| `RefreshTokens.RefreshSucceedsIffUsable` | backend/internal/repository/auth_tokens.go:61-71 | a refresh rotates if and only if its token is unused, unrevoked and unexpired, and then yields a usable one |
| `RefreshTokens.TokensAreLostToTheirOwnFamily` | backend/internal/repository/auth_tokens.go:52-86 | in every run a token changes or becomes unusable only by its own rotation or by a replay or logout of its own family; what other users do never takes it away |
| `RefreshTokens.RevocationTouchesOneFamily` | backend/internal/repository/auth_tokens.go:82-86 | every token of the family is revoked, at the first time it was, and no other row or column changes |
| `RefreshTokens.RotationOutcomes` | backend/internal/repository/auth_tokens.go:43-80 | which outcome a rotation has, and exactly what each outcome changes |
| `RefreshTokens.LogoutEndsItsFamily` | backend/internal/service/auth.go:144-156 | a logout revokes the family of its own token and nothing else |
| `RefreshTokens.RefreshKeepsTheUser` | backend/internal/service/auth.go:113-131 | a rotation gives the same user a token for seven days more |
| `RefreshTokens.FamiliesHaveOneUser` | backend/internal/service/auth.go:113-182 | in every run all tokens of a family belong to one user |
| `RefreshTokens.TokensLastSevenDays` | backend/internal/service/auth.go:168-180 | a new token can be used for exactly seven days |
| `RefreshTokens.RunKeeps` | backend/internal/service/auth.go:113-182 | chains, requests under way and rotations stay consistent in every run |
| `RefreshTokens.TokenStore.RotateRefreshToken` | backend/internal/repository/auth_tokens.go:40-80 | not found and nothing changes, replay and only its family is revoked, or rotation and only the token and its successor are touched |
| `RefreshTokens.TokenStore.Refresh` | backend/internal/service/auth.go:113-141 | without interference a refresh rotates exactly a usable token into a usable one; when the user look-up or signing fails afterwards, the old token is used up and the new one is handed to nobody |
| `RefreshTokens.TokenStore.RevokeRefresh` | backend/internal/service/auth.go:144-156 | a logout revokes the token's family and no other row, and ignores an unknown token |
| `LineFraming.StreamPost` | frontend/src/api.ts:391-407 | however the stream is cut into reads, the payloads delivered are those of splitting the whole text at once, the last unfinished line included |
| `LineFraming.SplitIsExact` | frontend/src/api.ts:398 | splitting loses nothing and no piece contains a newline |
| `LineFraming.DataLinesAreRead` | frontend/src/api.ts:400-402 | a line that begins with data:, but for white space, carries what follows, trimmed |
| `LineFraming.OtherLinesAreNot` | frontend/src/api.ts:400-402 | no other line carries anything |
| `LineFraming.FramesRoundTrip` | backend/internal/handler/agent.go:165 | the browser delivers exactly the payloads that were written as frames |
| `LineFraming.UnfinishedFrameIsDelivered` | frontend/src/api.ts:405-407 | a last frame without newline is delivered too |
| `AnswerStream.Tokenize` | agent/main.py:77-92 | the loop with its buffer yields the specified tokens |
| `AnswerStream.TokensLossless` | agent/main.py:77-92 | the tokens spell the answer and none is empty |
| `AnswerStream.TokensAreGrouped` | agent/main.py:81-85 | CJK characters are given out in groups of at most three |
| `AnswerStream.TokensAreMaximal` | agent/main.py:77-92 | tokens are cut no finer than they have to be: CJK characters in threes as far as they go, whole runs of letters and digits and of white space |
| `AnswerStream.Chat` | backend/internal/handler/agent.go:124-270 | the relay loop and the closing branches emit and save what the two theorems below describe |
| `AnswerStream.EventsAreRead` | backend/internal/handler/agent.go:153-172 | a line carries an event exactly if data: begins it and what follows, trimmed, is not empty and can be decoded |
| `AnswerStream.EveryStreamIsWellFormed` | backend/internal/handler/agent.go:129-269 | for any Agent lines: meta, tokens, exactly one of error or done, end; done exactly when saved; saved text is the relayed text and not blank |
| `AnswerStream.SavedIff` | backend/internal/handler/agent.go:185-210 | an answer is saved if and only if the first closing line says done, reading did not fail, the text is not blank and saving works |
| `AnswerStream.FailuresInOrder` | backend/internal/handler/agent.go:187-209 | which error the handler reports: a broken stream before a blank answer before a failing store |
| `AnswerStream.Utf8Bytes` | backend/internal/handler/agent.go:151 | the size of a line in bytes, against which the scanner's limit is held |
| `AnswerStream.ReturnsAreDropped` | backend/internal/handler/agent.go:150-153 | a carriage return before the newline is not part of the line, and nothing else is taken from it |
| `AnswerStream.FramesAreTyped` | backend/internal/handler/agent.go:125-262 | each frame decodes to its own type, and a relayed payload goes out as it came in |
| `AnswerStream.TheWholeAnswerIsSaved` | agent/main.py:198-207 | of an answer that the Agent finished the Backend saves the whole if and only if it is not blank, the store takes it and no line of the Agent's stream is too long for the scanner; otherwise nothing |
| `AnswerStream.TheBrowserShowsTheAnswer` | frontend/src/api.ts:391-407 | from Agent to browser over any cutting of the network the shown text is the answer, character for character, or its beginning when a line was too long for the scanner; what was saved is what is shown |

## Left out

- Row-level lock interleavings inside one transaction, such as a revocation that misses a row inserted by a concurrent rotation.
- Chunking.ChunkBody: does not model the heading path and page number of a record (agent/rag/pipeline.py:352-368), which a best-effort substring search fills in.
- Headings of an image are kept as a list; the source joins them with " | " and splits them again, which is the same unless a heading contains that separator.
- FileKind: lowers ASCII letters only, which decides the same kinds for every file type in use.
- ChunkStore.Tables.Persist: does not model the embedding, title and lexical columns, which no key or theorem depends on.
- RedisScript.ScriptAgreesIff: compares both limiters on one time unit; the source truncates to milliseconds for Redis only.
- Fusion.Fuse: does not model the two SQL searches; their rows are parameters with distinct ids.
- Expansion.ExpandVisibleContext: does not model the visibility query; its body rows are a parameter.
- Rerank.Rerank: does not model redaction or the HTTP call; the remote answer is a parameter.
- AnswerStream.Chat: does not model citation validation, run tracing and token accounting, which do not touch the stream.
- The single-flight refresh of the browser, JWT signing, password hashing, permissions, notes, plans, quizzes and the user interface.
- Liveness under failures: only an undisturbed parse is shown to finish.
