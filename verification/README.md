# A verified model of SymmetricDS batch splitting and load decisions

This project models two sequential parts of the SymmetricDS replication engine, and proves properties about them in Dafny.

1. **The multi-batch staging writer** (`MultiBatchStagingWriter`). On the sending side, one logical stream of extracted rows is spread over an ordered list of pre-planned outgoing batches (placeholders). Each placeholder gets its own staging writer. When the current placeholder reaches the size cap and placeholders remain, the writer rolls over to the next one and re-emits the current table header on the new writer. `close` drains the placeholders that are still queued as empty batches.
   - The staging writer underneath is an abstract sink that records a trace of the calls it receives.
   - The main theorem (`MultiBatchTheory.ExtractDistributes`) compares a whole extract against an independent greedy-fill reference (`Expected`). It proves:
     - every placeholder is used exactly once and in order;
     - placeholders are filled to the cap in order; the first one that cannot be filled takes the remainder, the ones after it are drained empty, and the last one takes any overflow;
     - the counts add up to the number of rows forwarded to the sinks.

2. **The decision logic of the loading service** (`DataLoaderService`), separated from its plumbing:
   - loader-type normalisation and factory choice;
   - the conflict-settings cache, with an explicit clock;
   - the insert guard and primary key of `incoming_error`;
   - the retry substitutions handed to the data writer;
   - the claim, success and error callbacks of `ManageIncomingBatchListener`;
   - the resend decisions of `LoadIntoDatabaseOnArrivalListener`;
   - `containsError` and the process status of the load paths;
   - `logAndRethrow`, as a closed classification;
   - the cut of a redirection URL at `/registration?`.

Databases, services and the extension registry become explicit values: sequences for tables, maps for registries, and parameters for the answers of services the model does not contain. Exceptions become `Result`/`Option` values or outcome constructors.

Modules, one concept each:

| file | module | what |
|---|---|---|
| common.dfy | Common | `Option` (a nullable reference) and `Result` |
| java_strings.dfy | JavaStrings | `isBlank`, `isNotBlank`, `indexOf`, and how null prints in a concatenation |
| entities.dfy | Entities | batches, tables, rows, incoming batches, conflict settings, incoming errors |
| outgoing.dfy | Outgoing | outgoing batch placeholders and their status |
| multi_batch.dfy | MultiBatch | the staging writer as a state machine over a trace sink |
| multi_batch_theory.dfy | MultiBatchTheory | invariants, the greedy-fill reference, the splitting theorem |
| loader_factory.dfy | LoaderFactory | `filterDataLoaderType`, `getDataLoaderFactories`, `getFactory` |
| conflict_cache.dfy | ConflictCache | `clearCache`, `getConflictSettingsNodeGroupLinks`, `save`, `refreshFromDatabase` |
| incoming_errors.dfy | IncomingErrors | `insertIncomingError`, `getIncomingErrors`, the retry part of `buildDataWriter` |
| batch_listener.dfy | BatchListener | `beforeBatchStarted`, `batchSuccessful`, `batchInError` |
| staged_load.dfy | StagedLoad | `LoadIntoDatabaseOnArrivalListener.end` and its load task |
| load_outcome.dfy | LoadOutcome | `containsError`, `logAndRethrow`, the final process status, the acknowledgement URL |

Behaviour of the code, as written, that the model keeps:

- The last placeholder never enters `finishedBatches`, so `rowCount` (and `byteCount`) leave out its rows. `ExtractDistributes` states `rowCount == SumCounts(finished)` for that reason.
- A cap below 1 behaves like a cap of 1 (`MultiBatch.Cap`): the count is compared after the increment.
- With two or more placeholders and no table ever started, `close` throws "'table' cannot null while starting new batch" (`MultiBatchTheory.EmptyStreamFails`).
- Before the extractor's batch is started, the writer's `batch` is null. Ending a table, or a write that rolls over, dereferences it and throws (`MultiBatch.NoBatchStarted`, `MultiBatchTheory.NoBatchStartedFails`).
- `close` does not close the writer of the current placeholder before draining the queue. Only the last writer gets a `close` call (`MultiBatchTheory.CloseClosesOnlyLast`).
- In `getFactory`, when neither the configured type nor "default" is registered, the code dereferences null (`LoaderFactory.NullDereference`). When the configured type is unsupported and "default" is missing, it returns null (`NullFactory`, `LoaderFactory.NoDefaultUnsupported`).
- In a conflict message, a null exception message prints as "null" before the SQL cause's message.
- The resend record written by the load task is a new object. It is not added to the listener's processed list. The record written when a batch arrives without staging is added to that list.

Constants the model fixes:

- The configuration channel id is "config" (`Constants.CHANNEL_CONFIG`).
- The registration batch id is -9999 (`Constants.VIRTUAL_BATCH_FOR_REGISTRATION`).

`Constants.java` is not part of this model. The SQL state and code markers of `ErrorConstants` are kept abstract as constructors (`ConflictState`, `FkViolationCode`, …).

## Model

| member | source | states |
|---|---|---|
| MultiBatch.New | symmetric-core/src/main/java/org/jumpmind/symmetric/service/impl/MultiBatchStagingWriter.java:60-71 | the caller's placeholder list is copied into the queue; nothing is finished or current; counters and trace start empty |
| MultiBatch.NextBatch | symmetric-core/src/main/java/org/jumpmind/symmetric/service/impl/MultiBatchStagingWriter.java:194-205 | the previous placeholder moves to finished and its rows are added to rowCount; the queue head becomes current with both event counts 0; its extract count goes up by 1 exactly when something is finished |
| MultiBatch.Open | symmetric-core/src/main/java/org/jumpmind/symmetric/service/impl/MultiBatchStagingWriter.java:73-81 | fails exactly on an empty placeholder list; otherwise the head of the queue is current, taken as nextBatch takes it (same id, node, channel and status, both event counts 0, extract count raised only if something was finished before), and writer number `writersBuilt` is opened |
| MultiBatch.StartBatch | symmetric-core/src/main/java/org/jumpmind/symmetric/service/impl/MultiBatchStagingWriter.java:106-115 | the batch is remembered and forwarded to the current writer; nothing else changes |
| MultiBatch.StartTable | symmetric-core/src/main/java/org/jumpmind/symmetric/service/impl/MultiBatchStagingWriter.java:117-124 | the table is remembered and forwarded to the current writer; nothing else changes |
| MultiBatch.CheckSend | symmetric-core/src/main/java/org/jumpmind/symmetric/service/impl/MultiBatchStagingWriter.java:149-157 | with the extract-and-send flag off, or on an OK placeholder, nothing changes; otherwise the status becomes NE |
| MultiBatch.StartNewBatch | symmetric-core/src/main/java/org/jumpmind/symmetric/service/impl/MultiBatchStagingWriter.java:219-236 | fails exactly when no table was started; otherwise a new writer is opened, started on an EXTRACT batch carrying the placeholder's id, channel and node, and the current table is re-started on it; the placeholder taken becomes current with both event counts reset and its extract count raised unless it is the very first |
| MultiBatch.Write | symmetric-core/src/main/java/org/jumpmind/symmetric/service/impl/MultiBatchStagingWriter.java:126-147 | both event counts go up by 1 and the row reaches the current writer; at the cap with placeholders left, the writer ends table and batch and closes, the placeholder takes the byte count, is check-sent, finished and committed if eligible, and the next placeholder starts; a rollover fails with the null-batch error when no batch was started, and otherwise exactly when no table was started |
| MultiBatch.EndTable | symmetric-core/src/main/java/org/jumpmind/symmetric/service/impl/MultiBatchStagingWriter.java:176-184 | without a writer nothing happens; with a writer but no batch started it fails with the null-batch error; otherwise the table end is forwarded, the placeholder takes the writer's byte count, and nothing else changes |
| MultiBatch.EndBatch | symmetric-core/src/main/java/org/jumpmind/symmetric/service/impl/MultiBatchStagingWriter.java:186-192 | the error flag is remembered and the writer's own current batch, not the argument, is ended |
| MultiBatch.DrainOne | symmetric-core/src/main/java/org/jumpmind/symmetric/service/impl/MultiBatchStagingWriter.java:91-95 | one drain step finishes the current placeholder and makes the next queued one current: same batch id, node, channel and status, no events, extract count raised unless it is the very first; it fails exactly when no table was started |
| MultiBatch.Close | symmetric-core/src/main/java/org/jumpmind/symmetric/service/impl/MultiBatchStagingWriter.java:89-99 | on success the queue is empty and one placeholder is placed for every placeholder that was queued; it fails exactly when there is something to drain and no table |
| MultiBatch.CloseDrains | symmetric-core/src/main/java/org/jumpmind/symmetric/service/impl/MultiBatchStagingWriter.java:89-99 | on success the placeholders placed before close are kept as they were, followed by every queued placeholder in queue order, each with the same batch id, node, channel and status, no events, and its extract count raised unless it is the very first |
| MultiBatchTheory.ExpectedShape | symmetric-core/src/main/java/org/jumpmind/symmetric/service/impl/MultiBatchStagingWriter.java:131-140 | the greedy-fill reference has one entry per placeholder, sums to the row count, and keeps every entry but the last within the cap |
| MultiBatchTheory.ExpectedSplit | symmetric-core/src/main/java/org/jumpmind/symmetric/service/impl/MultiBatchStagingWriter.java:131-140 | filling k placeholders to the cap first is the reference started k placeholders later with k times the cap fewer rows |
| MultiBatchTheory.OpenTracks | symmetric-core/src/main/java/org/jumpmind/symmetric/service/impl/MultiBatchStagingWriter.java:194-205 | after open, the placeholders (finished, current, queued) are the caller's list in order, the totals are the sums over finished ones, and the fill invariant holds |
| MultiBatchTheory.NextBatchTracks | symmetric-core/src/main/java/org/jumpmind/symmetric/service/impl/MultiBatchStagingWriter.java:194-205 | nextBatch finishes the current placeholder as it stands and takes the next one in the caller's order, keeping conservation and the counts the placeholders would end with |
| MultiBatchTheory.StartNewBatchTracks | symmetric-core/src/main/java/org/jumpmind/symmetric/service/impl/MultiBatchStagingWriter.java:219-236 | startNewBatch with a table started succeeds, keeps the placeholder order and conservation, and forwards no rows |
| MultiBatchTheory.WriteTracksInPlace | symmetric-core/src/main/java/org/jumpmind/symmetric/service/impl/MultiBatchStagingWriter.java:128-130 | a write below the cap keeps the placeholder list in order, keeps conservation, and adds exactly one forwarded row |
| MultiBatchTheory.WriteTracksRollover | symmetric-core/src/main/java/org/jumpmind/symmetric/service/impl/MultiBatchStagingWriter.java:131-140 | a rollover write finishes a placeholder holding exactly the cap, keeps the list in order and conservation, and adds exactly one forwarded row |
| MultiBatchTheory.FilledTracks | symmetric-core/src/main/java/org/jumpmind/symmetric/service/impl/MultiBatchStagingWriter.java:128-138 | the write that reaches the cap leaves its placeholder holding exactly the cap, still in order, with one more row forwarded |
| MultiBatchTheory.WriteTracks | symmetric-core/src/main/java/org/jumpmind/symmetric/service/impl/MultiBatchStagingWriter.java:126-140 | every write with a table and a batch started succeeds and preserves order, conservation and the fill invariant |
| MultiBatchTheory.EndTableTracks | symmetric-core/src/main/java/org/jumpmind/symmetric/service/impl/MultiBatchStagingWriter.java:176-184 | ending a table of a started batch succeeds and preserves order and conservation |
| MultiBatchTheory.EndBatchTracks | symmetric-core/src/main/java/org/jumpmind/symmetric/service/impl/MultiBatchStagingWriter.java:186-192 | ending a batch preserves order and conservation |
| MultiBatchTheory.StartTableTracks | symmetric-core/src/main/java/org/jumpmind/symmetric/service/impl/MultiBatchStagingWriter.java:117-124 | starting a table preserves order and conservation |
| MultiBatchTheory.StartBatchTracks | symmetric-core/src/main/java/org/jumpmind/symmetric/service/impl/MultiBatchStagingWriter.java:106-115 | starting a batch preserves order and conservation |
| MultiBatchTheory.DrainOneTracks | symmetric-core/src/main/java/org/jumpmind/symmetric/service/impl/MultiBatchStagingWriter.java:91-95 | a drain step takes the next placeholder in order as an empty batch and preserves conservation |
| MultiBatchTheory.CloseTracks | symmetric-core/src/main/java/org/jumpmind/symmetric/service/impl/MultiBatchStagingWriter.java:89-99 | close with a table started empties the queue, keeps order and conservation, and forwards no further rows |
| MultiBatchTheory.CloseClosesOnlyLast | symmetric-core/src/main/java/org/jumpmind/symmetric/service/impl/MultiBatchStagingWriter.java:89-99 | close with a table started opens one writer per drained placeholder but closes only one, the last writer, as the final call |
| MultiBatchTheory.FillingProfile | symmetric-core/src/main/java/org/jumpmind/symmetric/service/impl/MultiBatchStagingWriter.java:128-140 | while writing, the counts the placeholders would end with are exactly the greedy-fill reference for the rows forwarded so far |
| MultiBatchTheory.WriteAllTracks | symmetric-core/src/main/java/org/jumpmind/symmetric/service/impl/MultiBatchStagingWriter.java:126-140 | writing a table's rows succeeds and forwards exactly that many rows, preserving the invariants |
| MultiBatchTheory.FeedTracks | symmetric-core/src/main/java/org/jumpmind/symmetric/service/impl/MultiBatchStagingWriter.java:117-184 | feeding tables (start, rows, end) succeeds and forwards exactly their total rows, preserving the invariants |
| MultiBatchTheory.ExtractDistributes | symmetric-core/src/main/java/org/jumpmind/symmetric/service/impl/MultiBatchStagingWriter.java:89-205 | a whole extract uses every placeholder once and in order, raises extract counts after the first, ends with exactly the greedy-fill counts, and conserves rows |
| MultiBatchTheory.FedTracks | symmetric-core/src/main/java/org/jumpmind/symmetric/service/impl/MultiBatchStagingWriter.java:106-184 | opening, starting the batch and feeding every table forwards exactly the stream's rows and keeps both invariants |
| MultiBatchTheory.CloseDistributes | symmetric-core/src/main/java/org/jumpmind/symmetric/service/impl/MultiBatchStagingWriter.java:89-99 | ending the batch and closing from the fill invariant leaves every placeholder with the greedy-fill count of the rows forwarded |
| MultiBatchTheory.ClosedPlacement | symmetric-core/src/main/java/org/jumpmind/symmetric/service/impl/MultiBatchStagingWriter.java:194-205 | with the queue empty, finished plus current are the caller's placeholders in order |
| MultiBatchTheory.EmptyStreamFails | symmetric-core/src/main/java/org/jumpmind/symmetric/service/impl/MultiBatchStagingWriter.java:231-234 | with two or more placeholders and no table ever started, the extract fails when close drains |
| MultiBatchTheory.NoBatchStartedFails | symmetric-core/src/main/java/org/jumpmind/symmetric/service/impl/MultiBatchStagingWriter.java:126-184 | after open and a table start but before any batch start, ending the table fails with the null-batch error, and so does a write that rolls over |
| MultiBatchTheory.TwoHundredFiftyRows | symmetric-core/src/main/java/org/jumpmind/symmetric/service/impl/MultiBatchStagingWriter.java:131-140 | cap 100, 250 rows and three placeholders end with 100, 100 and 50 events |
| LoaderFactory.FilterDataLoaderType | symmetric-core/src/main/java/org/jumpmind/symmetric/service/impl/DataLoaderService.java:1232-1246 | null stays null, the five deprecated bulk types become "bulk", every other type is kept |
| LoaderFactory.FilterIdempotent | symmetric-core/src/main/java/org/jumpmind/symmetric/service/impl/DataLoaderService.java:1232-1246 | normalising twice is normalising once |
| LoaderFactory.FactoriesByTypeLastWins | symmetric-core/src/main/java/org/jumpmind/symmetric/service/impl/DataLoaderService.java:207-214 | the registry map has exactly the registered type names as keys, each mapped to the last factory registered under it |
| LoaderFactory.GetFactory | symmetric-core/src/main/java/org/jumpmind/symmetric/service/impl/DataLoaderService.java:639-665 | a chosen factory is registered, and one other than "default" is the channel's requested type and supports the platform; the null dereference happens exactly when neither the requested type nor "default" is registered; a null factory is returned exactly when "default" is missing and the requested type is registered but does not support the platform |
| LoaderFactory.GetFactoryFallback | symmetric-core/src/main/java/org/jumpmind/symmetric/service/impl/DataLoaderService.java:639-665 | with "default" registered, the requested type is chosen exactly when it is registered and supported, and "default" otherwise |
| LoaderFactory.UnknownChannelGetsDefault | symmetric-core/src/main/java/org/jumpmind/symmetric/service/impl/DataLoaderService.java:640-648 | an unknown channel asks for "default" |
| LoaderFactory.NoDefaultUnknownType | symmetric-core/src/main/java/org/jumpmind/symmetric/service/impl/DataLoaderService.java:648-657 | without "default", an unregistered type ends in a null dereference |
| LoaderFactory.NoDefaultUnsupported | symmetric-core/src/main/java/org/jumpmind/symmetric/service/impl/DataLoaderService.java:657-662 | without "default", a registered type that does not support the platform yields a null factory |
| ConflictCache.Query | symmetric-core/src/main/java/org/jumpmind/symmetric/service/impl/DataLoaderService.java:693-697 | the lookup query returns exactly the table's settings for the link |
| ConflictCache.ClearCache | symmetric-core/src/main/java/org/jumpmind/symmetric/service/impl/DataLoaderService.java:674-679 | the cache is emptied and the reset time becomes now |
| ConflictCache.GetConflictSettings | symmetric-core/src/main/java/org/jumpmind/symmetric/service/impl/DataLoaderService.java:681-707 | a null link gives an empty list and no change; on timeout or refresh the cache is cleared first; a miss queries and stores, a hit returns the stored list |
| ConflictCache.LookupCoherent | symmetric-core/src/main/java/org/jumpmind/symmetric/service/impl/DataLoaderService.java:681-707 | against an unchanged table, a coherent cache answers what the table holds and stays coherent |
| ConflictCache.HitIgnoresTable | symmetric-core/src/main/java/org/jumpmind/symmetric/service/impl/DataLoaderService.java:691-705 | before expiry a hit is served from the cache whatever the table now holds |
| ConflictCache.Upsert | symmetric-core/src/main/java/org/jumpmind/symmetric/service/impl/DataLoaderService.java:717-747 | after the save the setting is stored, rows with another conflict id are kept, and the rows with its id are replaced |
| ConflictCache.UpsertKeepsIdsUnique | symmetric-core/src/main/java/org/jumpmind/symmetric/service/impl/DataLoaderService.java:717-747 | saving keeps conflict ids unique and the saved setting is the only row with its id |
| ConflictCache.Save | symmetric-core/src/main/java/org/jumpmind/symmetric/service/impl/DataLoaderService.java:717-747 | the reset time becomes 0 without clearing the cache; the table becomes the upsert of the setting: it is stored, every row with another conflict id is kept, and no other row is added |
| ConflictCache.SaveThenLookupSeesSetting | symmetric-core/src/main/java/org/jumpmind/symmetric/service/impl/DataLoaderService.java:681-718 | after a save, the next lookup past the timeout reloads and returns the saved setting |
| ConflictCache.RefreshFromDatabase | symmetric-core/src/main/java/org/jumpmind/symmetric/service/impl/DataLoaderService.java:188-201 | true and a cleared cache with the new date remembered exactly when the max date is non-null and strictly newer than the remembered one (or none was remembered); otherwise false and no change |
| ConflictCache.RefreshRestoresCoherence | symmetric-core/src/main/java/org/jumpmind/symmetric/service/impl/DataLoaderService.java:188-201 | a refresh that found newer settings leaves a cache coherent with the table |
| ConflictCache.RefreshSettles | symmetric-core/src/main/java/org/jumpmind/symmetric/service/impl/DataLoaderService.java:188-201 | a second refresh with the same max date changes nothing |
| IncomingErrors.InsertIncomingError | symmetric-core/src/main/java/org/jumpmind/symmetric/service/impl/DataLoaderService.java:780-805 | skipped exactly when the node id is blank or the batch id negative; refused exactly when the key exists; otherwise appended |
| IncomingErrors.InsertKeepsKeysUnique | symmetric-core/src/main/java/org/jumpmind/symmetric/service/impl/DataLoaderService.java:780-805 | inserting keeps the primary key unique and every stored row past the guard |
| IncomingErrors.InsertTwiceIsDuplicate | symmetric-core/src/main/java/org/jumpmind/symmetric/service/impl/DataLoaderService.java:780-805 | a second insert of the same row hits the primary key |
| IncomingErrors.ErrorsOf | symmetric-core/src/main/java/org/jumpmind/symmetric/service/impl/DataLoaderService.java:749-752 | exactly the rows of the batch and node |
| IncomingErrors.ResolvedRows | symmetric-core/src/main/java/org/jumpmind/symmetric/service/impl/DataLoaderService.java:617-626 | exactly the errors marked ignore or with non-blank resolve data become substitutions, each with its failed row number |
| IncomingErrors.ResolvedRowsSingle | symmetric-core/src/main/java/org/jumpmind/symmetric/service/impl/DataLoaderService.java:617-626 | one error yields its own substitution when it is resolved and nothing otherwise |
| IncomingErrors.ResolvedRowsAppend | symmetric-core/src/main/java/org/jumpmind/symmetric/service/impl/DataLoaderService.java:617-626 | the loop keeps table order: the substitutions of two runs of errors are those of the first followed by those of the second |
| IncomingErrors.ResolvedRowsMeaningful | symmetric-core/src/main/java/org/jumpmind/symmetric/service/impl/DataLoaderService.java:619-621 | every substitution is an ignore or carries non-blank data |
| IncomingErrors.BuildWriterInputs | symmetric-core/src/main/java/org/jumpmind/symmetric/service/impl/DataLoaderService.java:577-626 | the link exists exactly when the source node is known; substitutions are built only on a retry with a source node id, and then they are exactly the substitutions of that batch's errors, in table order |
| IncomingErrors.FirstAttemptIgnoresErrors | symmetric-core/src/main/java/org/jumpmind/symmetric/service/impl/DataLoaderService.java:617-626 | a first attempt does not depend on the incoming_error table |
| IncomingErrors.OtherBatchesDoNotLeak | symmetric-core/src/main/java/org/jumpmind/symmetric/service/impl/DataLoaderService.java:749-752 | errors of other batches or nodes never change a batch's error list |
| IncomingErrors.SameBatchAppends | symmetric-core/src/main/java/org/jumpmind/symmetric/service/impl/DataLoaderService.java:749-752 | a new row of the batch and node comes after all of its earlier rows |
| IncomingErrors.RetryAppendsResolution | symmetric-core/src/main/java/org/jumpmind/symmetric/service/impl/DataLoaderService.java:617-626 | on a retry, a newly recorded error of the batch adds its substitution after all earlier ones when it is resolved, and nothing otherwise |
| BatchListener.BeforeBatchStarted | symmetric-core/src/main/java/org/jumpmind/symmetric/service/impl/DataLoaderService.java:1012-1035 | loading disabled and not the config channel: false and nothing recorded; otherwise the batch is always recorded, and it becomes current and true is returned exactly when claimed; the registration batch purges configuration |
| BatchListener.StartedBatchIsCurrent | symmetric-core/src/main/java/org/jumpmind/symmetric/service/impl/DataLoaderService.java:1027-1031 | after a start the current batch is the record of that batch |
| BatchListener.BatchSuccessful | symmetric-core/src/main/java/org/jumpmind/symmetric/service/impl/DataLoaderService.java:1045-1065 | only the current record changes; it takes the statistics and status OK; it is updated when OK batches are recorded, deleted on a retry, otherwise not written; a failed write restores the old status and throws |
| BatchListener.SuccessRollsBackOnWriteFailure | symmetric-core/src/main/java/org/jumpmind/symmetric/service/impl/DataLoaderService.java:1053-1064 | a retried batch keeps its old status and the callback throws exactly when the delete fails |
| BatchListener.RecordFailure | symmetric-core/src/main/java/org/jumpmind/symmetric/service/impl/DataLoaderService.java:1110-1136 | only the SQL fields change; I/O failures set only the message; conflicts get the conflict markers; other SQL errors their raw state, code and message, or the foreign key markers |
| BatchListener.RecordFailureReadsSqlOnly | symmetric-core/src/main/java/org/jumpmind/symmetric/service/impl/DataLoaderService.java:1110-1136 | the classification depends on the record only through its earlier SQL state, code and message |
| BatchListener.ConflictMessage | symmetric-core/src/main/java/org/jumpmind/symmetric/service/impl/DataLoaderService.java:1119-1122 | without a cause, or with a blank cause message, the conflict message itself; otherwise the conflict message (or "null") followed by a space and the SQL cause's message |
| BatchListener.ConflictMarkersWin | symmetric-core/src/main/java/org/jumpmind/symmetric/service/impl/DataLoaderService.java:1118-1133 | a conflict records the conflict state even over a foreign key cause; a non-conflict SQL error records the foreign key state exactly when it is one |
| BatchListener.ErrorRow | symmetric-core/src/main/java/org/jumpmind/symmetric/service/impl/DataLoaderService.java:1151-1173 | the error row carries the batch's key, failed row and line, the table, row, current row and encoding of the context, no resolution, and the conflict's id exactly when the failure is a conflict (none otherwise) |
| BatchListener.FailedRecord | symmetric-core/src/main/java/org/jumpmind/symmetric/service/impl/DataLoaderService.java:1091-1147 | the record after a failure: status read back, or ER unless it is OK or IG; statistics copied when present; SQL fields as the failure classifies them; every other field unchanged |
| BatchListener.BatchInError | symmetric-core/src/main/java/org/jumpmind/symmetric/service/impl/DataLoaderService.java:1078-1208 | without a current batch nothing changes; otherwise only its record changes: status ER unless the re-read status is OK or IG; one error row inserted exactly when marked ER with table and row and the insert succeeds; duplicates swallowed; updated when OK batches are recorded or on a retry, inserted otherwise |
| BatchListener.ErrorTableStaysKeyed | symmetric-core/src/main/java/org/jumpmind/symmetric/service/impl/DataLoaderService.java:1149-1185 | the incoming_error primary key stays unique across a failure |
| BatchListener.RepeatedFailureRecordedOnce | symmetric-core/src/main/java/org/jumpmind/symmetric/service/impl/DataLoaderService.java:1179-1184 | the same row failing twice is recorded once |
| StagedLoad.End | symmetric-core/src/main/java/org/jumpmind/symmetric/service/impl/DataLoaderService.java:971-982 | a staged batch queues a load task; a batch without staging is recorded, marked RS and written when claimed, and sets the error flag |
| StagedLoad.RunTask | symmetric-core/src/main/java/org/jumpmind/symmetric/service/impl/DataLoaderService.java:923-968 | loads from stage exactly when no error was seen and the resource exists, and a failed load sets the error flag; otherwise a new RS record is written |
| StagedLoad.Replay | symmetric-core/src/main/java/org/jumpmind/symmetric/service/impl/DataLoaderService.java:919-982 | over any sequence of arrivals and task runs the error flag never clears |
| StagedLoad.ErrorIsSticky | symmetric-core/src/main/java/org/jumpmind/symmetric/service/impl/DataLoaderService.java:925-965 | once the error flag is set every later task asks for a resend |
| StagedLoad.MissingStageStopsLoads | symmetric-core/src/main/java/org/jumpmind/symmetric/service/impl/DataLoaderService.java:971-979 | a batch arriving without staging stops every later load from stage |
| StagedLoad.CleanRunLoadsAll | symmetric-core/src/main/java/org/jumpmind/symmetric/service/impl/DataLoaderService.java:925-956 | with every batch staged, present and loading cleanly, every task loads from stage |
| LoadOutcome.ContainsError | symmetric-core/src/main/java/org/jumpmind/symmetric/service/impl/DataLoaderService.java:362-369 | true exactly when some batch has status ER |
| LoadOutcome.LogAndRethrow | symmetric-core/src/main/java/org/jumpmind/symmetric/service/impl/DataLoaderService.java:553-575 | every IOException is rethrown; conflict and SQL failures are swallowed silently; exactly the unclassified ones are logged and swallowed |
| LoadOutcome.LoadFromTransport | symmetric-core/src/main/java/org/jumpmind/symmetric/service/impl/DataLoaderService.java:539-550 | the load throws exactly the failures logAndRethrow rethrows, and returns the processed batches otherwise |
| LoadOutcome.FinalStatus | symmetric-core/src/main/java/org/jumpmind/symmetric/service/impl/DataLoaderService.java:315-319 | OK exactly when the load returned and no returned batch is in error |
| LoadOutcome.SwallowedFailureReportsBatches | symmetric-core/src/main/java/org/jumpmind/symmetric/service/impl/DataLoaderService.java:400-404 | after a swallowed failure, the status is OK exactly when no processed batch is in error |
| LoadOutcome.ListenerErrorEndsInError | symmetric-core/src/main/java/org/jumpmind/symmetric/service/impl/DataLoaderService.java:455-459 | a batch the error callback marks ER makes the load end in ERROR |
| LoadOutcome.AckUrl | symmetric-core/src/main/java/org/jumpmind/symmetric/service/impl/DataLoaderService.java:303-307 | the acknowledgement URL is a prefix of the redirection URL |
| LoadOutcome.AckUrlDropsRegistration | symmetric-core/src/main/java/org/jumpmind/symmetric/service/impl/DataLoaderService.java:303-307 | the cut URL contains no "/registration?", is cut exactly when the URL had one, and is cut where the first occurrence starts |
| LoadOutcome.AckUrlIdempotent | symmetric-core/src/main/java/org/jumpmind/symmetric/service/impl/DataLoaderService.java:303-307 | cutting twice is cutting once |
| LoadOutcome.SyncUrlForAck | symmetric-core/src/main/java/org/jumpmind/symmetric/service/impl/DataLoaderService.java:298-310 | a blank redirection keeps the sync URL; otherwise the sync URL becomes the redirection cut at its first "/registration?" |

## Left out

- Statistics, `ProcessInfo` bookkeeping, logging, extract timing and the 60-second progress log of `write`: these are observational and change no decision.
- MultiBatch.Write: the 60-second progress log also dereferences `batch`, so in Java a write with no batch started throws once a minute has passed even without a rollover. The clock is not modelled, so that write succeeds in the model.
- MultiBatch.EndTable: a statistics map without an entry for a non-null batch would also fail. The sink is not modelled, so only the null batch fails.
- `refreshLastUpdateTime` on the finished placeholders' staged resources in `nextBatch`: this is a timestamp side effect on staging files.
- Real byte counts: the byte statistic of each writer is an opaque function of the writer number.
- The staging manager, `StagingDataWriter` and the memory threshold: the sink only records the calls it receives.
- The transaction and commit around the `checkSend` update: the committed placeholder is recorded in `persisted`, and commit failure is not modelled.
- Sync-trigger enable and disable (`afterBatchStarted`, `beforeBatchEnd`, `enableSyncTriggers`): these are database session side effects.
- Executor, futures and `isDone`: task runs are modelled as an ordered sequence of events. Concurrent access to the error flag is not modelled.
- The transport, registration, HTTP and acknowledgement flows of `loadDataFromPull`, `loadDataFromPush` and `loadDataFromOfflineTransport`: only their final status decision and the acknowledgement URL are modelled.
- The SQL text, the row mappers, `delete`, `deleteAllConflicts` and `updateIncomingError`: the tables are sequences, and these calls make no decision.
- Load filters, transforms, error handlers and the construction of the data writer in `buildDataWriter`: only the link and the substitutions are modelled.
- The transaction that `batchInError` rolls back after a duplicate error row: the model does not tell the two `insertIncomingError` overloads apart.
- Failures of the error-row insert other than a duplicate key: these are not modelled.
- BatchListener.BeforeBatchStarted: what `acquireIncomingBatch` does to the record is reduced to the retry flag and status it leaves. The purge of configuration data for the registration batch is reported as a flag, not performed.
- BatchListener.BatchInError: `refreshIncomingBatch` is reduced to the status it reads back, and `setValues` to the statistics record it copies.
- StagedLoad.RunTask: loading from stage itself (reader, processor, listener callbacks, table counts, network time, ignore count, marking the resource done) is reduced to whether it throws.
- LoadOutcome.LogAndRethrow: the class hierarchy of the thrown object is reduced to a closed set of kinds. The eight named exception kinds are treated as distinct.
- MultiBatch.New: placeholders are values, matched to the caller's list by position. The Java list holds shared `OutgoingBatch` objects that the writer mutates in place, so the model assumes each object appears in the list once and nothing else changes it while the writer runs.
