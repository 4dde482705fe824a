# MLRunX ingest path: a verified model

This project models the hard core of the MLRunX API in Dafny and proves what it promises: the HTTP
ingest handler and its two ways of handing a batch on, the processor that drains the ingest stream,
idempotency, cardinality limits, both rate limiters, the run-filter language, the payload hash
pre-image, the in-memory gRPC store, downsampling, cursor paging, trusted-proxy rules and the derived
chart series. `dafny verify dfyconfig.toml` checks all of it.

How the parts fit together:

- `Ingest`, `Pipeline` and `ApiServer` are `http_ingest_batch`: validation and expansion loops,
  screening, the state of the API before and after each request, and the endpoint as a program over
  its stores. `Histories` runs it over any sequence of requests and failures in both modes,
  `DirectTables` says what direct mode has written, `Refinement` relates the modes, `Interleaving`
  relates them with the processor at work between the requests, `Resubmission` says what becomes of a
  batch sent again. `Store` holds the SQLite tables, as values and as a class whose row loops may stop after
  any statement.
- `Processor` is the drain protocol as a state machine: any number of processors, every store call one
  step that may fail (after any prefix of its rows), crashes and redeliveries anywhere. `Drain` is
  `process_entry` as a program; its object invariant says that its state is one the machine reaches,
  so the safety theorem holds of the program too. `Accounting` gives the exact balance of rows, events,
  points and counts that failures leave.
- `FilterTokenizer`, `FilterParser`, `FilterCondition` and `RunFilter` give the run-filter language a
  lexical grammar, a token grammar, a meaning and a printer that are all independent of the code, and
  relate the code to each of them.
- `TokenBucket`, `AuthLimiter`, `Idempotency` and `Limits` are classes whose methods are tied to
  specification functions; the theorems range over all histories of calls, and for the idempotency
  store also over all interleavings of its lock sections.
- `PayloadHash`, `Downsample`, `GrpcStore`, `Paging`, `Cidr`, `Series` and `MetadataKeys` cover the
  remaining cores.

Where a property one would expect is false of the code, the code is kept as it is, a lemma exhibits the
failure, and another says exactly when the property does hold: items that stand once (`ItemsStandOnceIff`),
duplicates of lost batches (`DuplicateMeansAnsweredIff`), deletions that overtake queued batches
(`SameItemsIff`, `SameRowsIff`), refused batches that are streamed (`LostYetStreamedIff`), failed persists (`FailedPersistLeavesAllIff`),
repeats with other content (`RepeatNeverLostIff`), equal hashes (`SameBytesIff`), one processing call per key (`ExactlyOneProcessesIff`), pruning (`PruningTransparentIff`), early unblocking
(`BlockHonouredIff`), chart walks (`LogWalkCompleteIff`), order in the hash (`MetricsOrderIndependentIff`,
`PairsOrderIndependentIff`), shared gRPC batch keys (`KeySharedIff`), bucket labels (`ResultStrictIff`),
batch ids shared by two runs (`DrainIsDirect`, which names the batches that survive).

Where the documentation and the code disagree the model follows the code. `docs/spec/ingest.md`
describes a 24 hour lifetime for recorded batch ids, a reorder buffer with a timeout, and errors and
resume tokens for `InitRun` on an existing run; the code keeps batch ids until the run is cleared,
processes an out-of-order batch at once with a warning, and answers `InitRun` on any existing run with
that run.

## Model

| member | source | states |
|---|---|---|
| `Processor.CrashSafety` | services/processor/src/main.rs:81-197 | in every reachable state, with failures and crashes at any step of any number of processors and any redelivery: an acked entry's id is recorded; a recorded id stands for a streamed batch whose rows, points and events stand in one piece, whose rows are counted and whose tag and param keys are set; every tag and param value is one a streamed batch of that run carries under that key; the metrics of a run's recorded batches number at most its metrics count and that at most its rows; and with unique ids an acked entry's own writes are all there |
| `Processor.ActionKeepsSafe` | services/processor/src/main.rs:81-197 | the inductive step: each enqueue, delivery, call, failed call and crash keeps acks recorded, records written, workers no further than their writes, recorded metrics counted, and counted metrics backed by rows |
| `Processor.RunKeepsSafe` | services/processor/src/main.rs:251-267 | over whole runs the invariant holds and nothing is lost: stream, rows, points, keys, records and acks only grow |
| `Processor.ActionsGain` | services/processor/src/main.rs:81-197 | no action, successful or not, removes a stream entry, row, point, key, record or ack |
| `Processor.WorkHonest` | services/processor/src/main.rs:98-186 | a worker that passed a stage has that stage's writes in the stores: rows, points and events as one contiguous block, at least the batch's metrics in the count, the tag and param keys set |
| `Processor.CountKept` | services/processor/src/main.rs:98-116 | every action keeps a run's recorded and about-to-be-recorded metrics within the count, and the count plus the rows inserted but not yet counted within the rows |
| `Processor.RunSourced` | services/processor/src/main.rs:135-159 | along every run, whatever fails, each tag and param value in the tables is one that a streamed batch of the run carries under that key |
| `Processor.NewlyEarned` | services/processor/src/main.rs:187-197 | an ack is added only for an entry whose id is recorded already, a record only for a batch fully written |
| `Processor.FaultLeaves` | services/processor/src/main.rs:98-197 | what a failed call leaves: of the rows, points, pairs or events of its stage a prefix in the batch's run, of an ack possibly its effect, and otherwise nothing |
| `Drain.StreamProcessor.constructor` | services/processor/src/main.rs:215-240 | a new processor starts in the protocol's initial world, with stores of its own |
| `Drain.StreamProcessor.Enqueue` | apps/api/src/queue.rs:83-99 | appends the batch to the stream and keeps the state reachable |
| `Drain.StreamProcessor.CheckStage` | services/processor/src/main.rs:82-91 | an entry is seen exactly if the lookup works and its id is recorded; a failed lookup counts as unseen |
| `Drain.StreamProcessor.MetricsStage` | services/processor/src/main.rs:93-107 | the metric rows are written, or a prefix of them and the pass ends; no call without rows |
| `Drain.StreamProcessor.CountStage` | services/processor/src/main.rs:108-116 | the count goes up by the rows of the batch or the pass ends |
| `Drain.StreamProcessor.ClickHouseStage` | services/processor/src/main.rs:118-133 | the points are appended, or a prefix of them and the pass ends |
| `Drain.StreamProcessor.TagsStage` | services/processor/src/main.rs:135-146 | the tags are upserted, or a prefix of them and the pass ends |
| `Drain.StreamProcessor.ParamsStage` | services/processor/src/main.rs:148-159 | the params are upserted, or a prefix of them and the pass ends |
| `Drain.StreamProcessor.EventsStage` | services/processor/src/main.rs:161-185 | the events and then the warnings, as warn/ingest events, are appended, or a prefix of them and the pass ends |
| `Drain.StreamProcessor.RecordStage` | services/processor/src/main.rs:187-195 | the id is recorded unless the call fails or the id is recorded already, which is an error |
| `Drain.StreamProcessor.AckStage` | apps/api/src/queue.rs:159-169 | on success the entry is acked; a failure may follow an ack that took effect |
| `Drain.StreamProcessor.ProcessEntry` | services/processor/src/main.rs:81-213 | whatever fails, the state stays one the protocol reaches; success means the entry is acked; without failures the stores are those of direct persistence, recorded and acked, or only the ack changes if the id was recorded before |
| `Drain.StreamProcessor.DrainEntries` | services/processor/src/main.rs:251-267 | the loop over any deliveries with any failures keeps the state reachable; without failures it is the fold of the passes and nothing is left failed |
| `Drain.StreamProcessor.AlwaysSafe` | services/processor/src/main.rs:81-213 | the crash-safety theorem, of the program's own state |
| `Drain.PassPersists` | services/processor/src/main.rs:98-185 | the processor's writes of a batch, events and warnings in one insert, leave the tables that direct persistence leaves with two |
| `Drain.FirstPass` | services/processor/src/main.rs:81-197 | a pass without failures over an unrecorded entry ends with the batch directly persisted, recorded and acked |
| `Drain.FirstPassAppends` | services/processor/src/main.rs:98-197 | such a pass appends one point per metric row, in order, under the project and run of the batch, persists the batch in the tables, records its id and acks the entry |
| `Drain.RepeatPass` | services/processor/src/main.rs:82-91 | a pass over a recorded entry changes nothing but the ack |
| `Drain.DrainIsDirect` | services/processor/src/main.rs:251-267 | draining in stream order, with any repeats of earlier entries, leaves what direct persistence of the first batch of each id leaves; exactly the delivered entries are acked and exactly their ids recorded |
| `Drain.UniqueDrainIsDirect` | services/processor/src/main.rs:251-267 | with unique ids the drained tables are those of persisting the whole stream |
| `Drain.CrashRepeatsRows` | services/processor/src/main.rs:98-116 | the failing instance of `Accounting.ItemsStandOnceIff`: for every batch with metrics, a crash between insert and count and a redelivery leave its rows twice and counted once |
| `Accounting.ItemsAccounted` | services/processor/src/main.rs:98-197 | after any run, whatever failed, the multisets of a run's stored rows, of its stored events and of the stored points are exactly those of the recorded batches, once each, those of the passes under way, and the residues of the passes that died |
| `Accounting.ItemsStandOnceIff` | services/processor/src/main.rs:98-197 | for rows, events and points alike: recorded ones stand exactly once, beside those in flight, if and only if no insert failed after its first item and no pass with items failed or crashed, or met an id recorded meanwhile, between its insert and its record |
| `Accounting.CountAccounted` | services/processor/src/main.rs:108-116 | after any run a run's metrics count is exactly the metrics of its recorded batches, those counted by passes under way, and those counted by passes that died |
| `Drain.SharedIdIsDropped` | services/processor/src/main.rs:82-91 | the check asks about the batch id alone: the second of two batches with one id, even of another run, is acked and never written |
| `Store.SqliteStore.WriteMetrics` | apps/api/src/storage/sqlite.rs:1796-1813 | the row loop appends all rows, or on failure exactly those before the failing statement |
| `Store.SqliteStore.WriteTags` | apps/api/src/storage/sqlite.rs:1774-1789 | the upsert loop applies all pairs in order, or those before the failing statement |
| `Store.SqliteStore.WriteParams` | apps/api/src/storage/sqlite.rs:2170-2193 | the same for params |
| `Store.SqliteStore.WriteEvents` | apps/api/src/storage/sqlite.rs:2075-2106 | the row loop appends all events, or those before the failing statement |
| `Store.SqliteStore.AddToCount` | apps/api/src/storage/sqlite.rs:1741-1755 | the count goes up by the given number, or the call failed and nothing changed |
| `Store.PersistedEffect` | apps/api/src/main.rs:3503-3612 | table by table: direct persistence appends and counts the rows, upserts tags and params, appends events and then warnings in the batch's run, and leaves every other run alone |
| `Store.PersistedWarnings` | apps/api/src/main.rs:3565-3612 | in the batch's run its events follow those there were, and its warnings follow them in order, each at level warn from ingest, with its own text and neither step nor timestamp |
| `Store.UpsertDecides` | apps/api/src/storage/sqlite.rs:1774-1795 | a written key has the value of the last pair that carries it, any other key the value it had |
| `Store.DirectCountExact` | apps/api/src/main.rs:3518-3540 | after any batches persisted directly, a run's metrics count is exactly its number of rows |
| `Ingest.ValidatePairs` | apps/api/src/main.rs:3719-3752 | all params (or tags) pass and are kept in order under canonical keys with their values, or the error is that of the first that fails |
| `Ingest.ValidPairsDecides` | apps/api/src/main.rs:3719-3752 | a list passes exactly if every key is one and every value short enough, each pair then kept in its place under its canonical key; otherwise the first bad pair decides the error, a bad key before a long value |
| `MetadataKeys.KeyAcceptedIff` | apps/api/src/main.rs:303-357 | a key is accepted exactly if it is not blank and its full key, with the default namespace where it has no dot, is one to four dot-separated segments in at most 256 bytes, the first a known namespace, each of 1 to 64 letters, digits, underscores and hyphens; and then as that full key |
| `MetadataKeys.KeyRefused` | apps/api/src/main.rs:303-357 | the reason of a refusal in the order of the checks: blank, too long, too deep, unknown namespace, or the first bad segment |
| `Text.TrimUnique` | apps/api/src/main.rs:304 | trimming gives the one text that stands between whitespace and has none at its ends |
| `Text.LowerStands` | apps/api/src/main.rs:3942 | exactly the 26 capital letters are lowered |
| `Text.Utf8Stands` | apps/api/src/main.rs:315 | lengths are counted in UTF-8 bytes, one to four a character, and add up |
| `Ingest.ExpandMetrics` | apps/api/src/main.rs:3754-3792 | the nested expansion loops compute the specified rows or the first error, which `ExpandDecides` says of the request |
| `Ingest.ExpandDecides` | apps/api/src/main.rs:3754-3792 | expansion succeeds exactly if every metric has a name and at most 1024 values; value `j` of metric `i` is then the row at the number of values before it, with the metric's step and timestamp, its own value, and the trimmed name, for an array followed by the numeral of `j` in brackets; otherwise the first metric at fault decides the error |
| `Ingest.ExpandConserves` | apps/api/src/main.rs:3754-3792 | expansion succeeds exactly if no name is blank and no array too long, and then yields one row per scalar and array element |
| `Ingest.ElementNamesDistinct` | apps/api/src/main.rs:3782-3789 | the elements of one array metric get distinct names |
| `Ingest.ScreenMetrics` | apps/api/src/main.rs:3951-3977 | keeps, in order, the finite rows of accepted names and counts the non-finite ones |
| `Ingest.MetricsConserved` | apps/api/src/main.rs:3909-3977 | rows are exactly those kept, those dropped as not finite and those the tracker dropped, although the handler filters by a set of names and the tracker decides per occurrence |
| `Ingest.ScreenEvents` | apps/api/src/main.rs:3985-4028 | the event loop keeps, drops and warns as specified, after the warnings it was given |
| `Ingest.EventsConserved` | apps/api/src/main.rs:3985-4028 | input events are kept or counted as dropped, there is exactly one notice per unsafe event, and kept ones have a finite timestamp, a known level and a source |
| `Ingest.EventsPicked` | apps/api/src/main.rs:3985-4028 | exactly the events with text, a finite timestamp if any, and safe content are kept, in order, each with its level mapped to one of four, its source or "sdk" cut at 64, its message trimmed, cut at 16000 and made safe, its step and timestamp; the unsafe ones are exactly those with a notice, in order |
| `Ingest.NormalLevel` | apps/api/src/main.rs:3174-3187 | always one of the four levels |
| `Ingest.NormalSource` | apps/api/src/main.rs:3189-3200 | never empty and at most 64 characters |
| `Pipeline.IngestConserves` | apps/api/src/main.rs:3754-4028 | a request that reaches persistence accounts for everything: values = persisted + dropped for cardinality + dropped as not finite, all params kept, tags = accepted + dropped, events = kept + dropped, and any drop leaves a warning |
| `Pipeline.HandedOnSound` | apps/api/src/main.rs:3718-4028 | a batch is handed on only for a running run, as that run's; of the rows the request's metrics stand for it has, in order, exactly those with a tracked name of admissible length, a finite value and a finite timestamp if any; its params are the request's under canonical keys; of the request's tags under canonical keys it has, in order, exactly the tracked ones; its events are those `EventsPicked` describes |
| `Pipeline.ChecksDecide` | apps/api/src/main.rs:3683-3949 | the verdict on every request from the state before it: failed lookup, unknown run, bad content, repeat, conflict, second lookup failing, run not running, or handed on; a refused or repeated request leaves the state as it was |
| `Pipeline.PrepareDecides` | apps/api/src/main.rs:3718-3792 | params are checked before tags and tags before metrics, and the first of the three at fault decides the error |
| `Pipeline.HashCovers` | apps/api/src/main.rs:3800-3848 | the payload hash is that of every row with its name, value and step, every param, every tag, and every event with level and source normalized and message, step and timestamp as sent; of all that is sent only metric timestamps are left out |
| `Pipeline.RecordKept` | apps/api/src/main.rs:3850-3870 | a new batch is recorded with its project, number, hash and counts capped at 32 bits |
| `Pipeline.WarningsStand` | apps/api/src/main.rs:3868-4028 | the warnings of a batch in order: that its number is positive and below the highest seen of the run; those of the tracker; the number of rows not finite; each unsafe event; the number of events dropped |
| `Histories.OwnEffect` | apps/api/src/main.rs:3101-3131 | what creating and ending a run writes at once in either mode: tags and params upserted and events appended in that run, every other run left alone |
| `Histories.OwnDecides` | apps/api/src/main.rs:3101-3131 | a new run gets its tags, params and events, a known run that ends its events, and nothing is written otherwise or elsewhere |
| `Histories.ChecksRecord` | apps/api/src/main.rs:3854-3949 | a request records its key exactly if it is new and valid, before the run is looked up again and whatever follows |
| `Pipeline.PersistFaultless` | apps/api/src/main.rs:3503-3612 | direct persistence without failures writes the batch and reports all its events and warnings |
| `Pipeline.PersistSafe` | apps/api/src/main.rs:3503-3612 | whatever call fails, rows only grow and the count stays within the rows |
| `Pipeline.PersistExact` | apps/api/src/main.rs:3503-3612 | direct persistence fails exactly if a metrics, count, tags, params or events call it needs fails, and otherwise leaves the whole batch persisted, up to warnings whose own insert failed |
| `Pipeline.PersistGrows` | apps/api/src/main.rs:3503-3612 | whatever fails, no table loses a row, a key or a count |
| `Pipeline.PersistWrites` | apps/api/src/main.rs:3503-3612 | whatever call fails after however many rows, direct persistence leaves exactly the rows, count, pairs and events written before the failure in the batch's run, and nothing elsewhere |
| `Pipeline.FailedPersistLeavesAllIff` | apps/api/src/storage/sqlite.rs:2098-2103 | a persist that fails leaves the whole batch behind all the same, in whatever state the tables are, if and only if the failing call is the last with anything to write and had written all there was to change |
| `Refinement.Lockstep` | apps/api/src/main.rs:4030-4068 | without failures both modes answer every request, creation, end and deletion of a run alike, and where only requests touch the tables the directly written ones are those of persisting the stream |
| `Refinement.QueuedRefinesDirect` | apps/api/src/main.rs:4030-4068 | for every history without store failures in which no id is used for two runs and only requests touch the tables: same answers and accepted counts in both modes, and draining the queue in order with any redelivery leaves the tables direct persistence leaves |
| `Interleaving.InterleavedRefines` | services/processor/src/main.rs:81-197 | for every faultless history of requests, creations, ends and deletions of runs, with entries processed (the check against recorded ids included) and redelivered at any time between them, in which no id is used for two runs: once none of a run's batches waits, unless a deletion overtook one, queued mode holds the rows, count, tags, params and events of direct mode, and the events in the same order unless the run was ended while a batch of it was queued |
| `Interleaving.SameItemsIff` | services/processor/src/main.rs:81-197 | the exact condition, under the same hypotheses: once none of a run's batches waits, both modes hold the same multiset of rows (of events) if and only if no batch with rows (with events) was streamed before a deletion of the run and processed after it was created again, since its last deletion |
| `Interleaving.SameRowsIff` | services/processor/src/main.rs:93-107 | the same for the metric rows as an ordered list |
| `Interleaving.AlwaysBalanced` | services/processor/src/main.rs:81-197 | at every point of every such history, direct mode's rows (events) and those of the overtaken batches are together queued mode's and those of the waiting batches |
| `Interleaving.AlwaysSound` | services/processor/src/main.rs:82-91 | in every such history the streamed ids are unique, an entry not overtaken by a deletion has a run that exists and is recorded once processed, and a recorded id is that of a processed entry, although deletions remove recorded ids |
| `Interleaving.StepMoves` | services/processor/src/main.rs:81-197 | each step of either kind changes what the two modes hold for a run in one of six ways: not, both emptied, both written to, one batch queued, the next waiting batch processed, or one overtaken batch processed |
| `Interleaving.DeletionOvertakes` | apps/api/src/storage/sqlite.rs:1696-1718 | the failing case, after any such history: delete the run of the next queued entry, create it again, process the entry; queued mode then holds that batch, and direct mode only what the creation wrote |
| `Refinement.StreamFresh` | apps/api/src/main.rs:4043-4048 | whatever failed, streamed batches have recorded keys, one each, with the hashes they were recorded with |
| `Refinement.StreamUnique` | apps/api/src/services/idempotency.rs:91-178 | deduplication by (run, id) makes streamed ids unique, whatever fails, as soon as no id is used for two runs |
| `Histories.AlwaysAccounted` | apps/api/src/main.rs:3854-4068 | after any history, in either mode, with any failures and deletions, the recorded keys are those of the live batches (answered as done, run not deleted since), those lost and those whose run was deleted since; no live key is lost or gone, none is live twice, each has the payload hash it was recorded with |
| `Histories.DuplicateMeansAnsweredIff` | apps/api/src/main.rs:3872-3881 | "duplicate" means that an earlier request of the same key and hash was answered as done and its run not deleted since, if and only if the request that recorded the key found its run running, its second lookup and its hand-over did not fail, and the run was not deleted after the key was recorded; for either mode and any history |
| `DirectTables.DuplicateIsWritten` | apps/api/src/main.rs:3872-4065 | direct mode: a duplicate whose key was neither lost nor its run deleted since has its batch, under its key and hash, in the tables: rows and events in one piece, counted, keys set |
| `DirectTables.LiveIsWritten` | apps/api/src/main.rs:3503-3612 | in direct mode, after any history with any failures and deletions, every live batch is in the tables |
| `DirectTables.DirectBalance` | apps/api/src/main.rs:3503-3612 | over direct histories, whatever failed: a run's rows and events are those its requests, its creation and its end wrote since it was last deleted, in order, its count the metrics of those whose count call worked, its tags and params all the pairs written |
| `DirectTables.LostYetWritten` | apps/api/src/storage/sqlite.rs:2098-2103 | after any history a key can be lost and its batch written: the events call fails after its last row |
| `Refinement.LostYetStreamedIff` | apps/api/src/queue.rs:83-99 | after any history with any failures, a key is lost and its batch is on the stream if and only if the request that recorded it was handed on and its enqueue failed after the entry was added |
| `Histories.ReplyIff` | apps/api/src/main.rs:4030-4068 | in either mode a request is answered as done exactly if its batch is handed over without failure, and refused if it loses its key |
| `Histories.ReplyDecides` | apps/api/src/main.rs:4030-4097 | the reply in either mode: the error of the verdict, zero for a repeat, and for a batch handed over the number of its rows, params, tags, events and warnings, with its warnings; a failed insert of the warnings only leaves them out of the count |
| `Histories.RunLives` | apps/api/src/main.rs:3089-3100 | a new run is running, creating it again changes nothing, ending it sets its status, deleting it leaves the others, and none of these touches recorded keys or the tracker |
| `Histories.RunReplyDecides` | apps/api/src/main.rs:4138-4176 | creating a run always succeeds; ending or deleting one is an error exactly if the API does not know it |
| `Histories.LiveIffAnswered` | apps/api/src/main.rs:4030-4068 | the live batches are exactly those whose request was answered as done and whose run was not deleted since |
| `Histories.ModesShareApi` | apps/api/src/main.rs:3854-4068 | failures to hand batches on never show in the API state: both modes have the same |
| `Resubmission.DuplicateEverAfter` | apps/api/src/services/idempotency.rs:102-128 | once a request has recorded its key, kept or lost, the same content in any order is answered as a duplicate after every later history, deletions included, whenever its run exists, provided the hash ignores order |
| `Resubmission.DeletedThenDuplicate` | apps/api/src/storage/sqlite.rs:1696-1718 | a deleted run takes its tables with it, not its keys: once created again, a batch that had been handed on is a duplicate and its run's tables hold only what the creation wrote |
| `Resubmission.HashReordered` | apps/api/src/services/idempotency.rs:240-305 | a request whose metrics, params, tags and events come in another order validates alike and has the same hash, when no metric name and step carries two values and params, and tags, of one name commute |
| `Resubmission.FailedPersistThenDuplicate` | apps/api/src/main.rs:4049-4065 | a store failure after recording: the request is refused, the rows before the failing statement stay uncounted, and the retry is a duplicate that writes nothing |
| `Resubmission.TimestampsNotHashed` | apps/api/src/services/idempotency.rs:310-316 | two batches that differ only in metric timestamps have the same hash; `PayloadHash.SameBytesIff` says what else the bytes decide |
| `Resubmission.RefusedThenDuplicate` | apps/api/src/main.rs:3854-3949 | a request refused after recording its key, for whatever cause and in either mode: after every later history the batch is a duplicate whenever its run exists, and no batch of its key is ever live |
| `Resubmission.RefusalExists` | apps/api/src/main.rs:3944-3949 | a concrete such refusal |
| `ApiServer.Server.constructor` | apps/api/src/main.rs:3682-3687 | a fresh server has empty stores, caches and stream |
| `ApiServer.Server.PersistBatch` | apps/api/src/main.rs:3503-3612 | the ordered store calls with early return leave the specified tables and count, a failed warning insert being ignored |
| `ApiServer.Server.PrepareRequest` | apps/api/src/main.rs:3718-3792 | the three validation loops in the handler's order give the specified result |
| `ApiServer.Server.BuildBatch` | apps/api/src/main.rs:3870-4028 | screening and the collected warnings give the specified batch |
| `ApiServer.Server.CheckRequest` | apps/api/src/main.rs:3683-4028 | API state and verdict after the handler's checks are the specified ones, with either lookup of the run failing or not |
| `ApiServer.Server.HttpIngestBatch` | apps/api/src/main.rs:3683-4124 | reply, API state and the store of the mode in use are the specified ones, whichever of the lookups, store calls or the enqueue fails, an enqueue that took effect included; the other mode's store is untouched |
| `FilterTokenizer.TokenizeRunFilter` | apps/api/src/main.rs:509-632 | the index-driven loops compute the specified token list, and the "unexpected token boundary" error never occurs |
| `FilterTokenizer.ReadString` | apps/api/src/main.rs:537-562 | the literal loop unescapes up to the closing quote or reports an unterminated string |
| `FilterTokenizer.ReadWord` | apps/api/src/main.rs:597-609 | the word loop stops at the first character that ends a word |
| `FilterTokenizer.ReadToken` | apps/api/src/main.rs:521-622 | one token and the position after it |
| `FilterTokenizer.ScanDecidesLexes` | apps/api/src/main.rs:509-632 | the scan succeeds with exactly the token list the lexical grammar gives the text, so the grammar is unambiguous and anything else is rejected |
| `FilterTokenizer.TokenizeDecidesLexes` | apps/api/src/main.rs:509-632 | tokenizing succeeds exactly on texts of the grammar with at most 256 tokens |
| `FilterTokenizer.LexesSkipsSpace` | apps/api/src/main.rs:514-520 | leading whitespace never changes the tokens |
| `FilterParser.RunFilterParser.ParseOrExpression` | apps/api/src/main.rs:652-660 | result and cursor are those of the grammar rule's position function, which `OrComplete` and `OrSound` relate to derivations |
| `FilterParser.RunFilterParser.ParseAndExpression` | apps/api/src/main.rs:662-670 | result and cursor are those of the grammar rule's position function, which `OrComplete` and `OrSound` relate to derivations |
| `FilterParser.RunFilterParser.ParsePrimaryExpression` | apps/api/src/main.rs:672-683 | result and cursor are those of the grammar rule's position function, which `OrComplete` and `OrSound` relate to derivations |
| `FilterParser.RunFilterParser.ParseConditionExpression` | apps/api/src/main.rs:685-701 | result and cursor are those of the grammar rule's position function, which `OrComplete` and `OrSound` relate to derivations |
| `FilterParser.RunFilterParser.ParseAll` | apps/api/src/main.rs:644-650 | the cursor-driven recursive descent computes the specified result and on success has consumed every token |
| `FilterParser.OrComplete` | apps/api/src/main.rs:652-701 | every derivable token list is parsed to the expression it denotes, or to the error of its first condition that does not build |
| `FilterParser.OrSound` | apps/api/src/main.rs:652-701 | whatever is parsed has a derivation that spans exactly the tokens consumed |
| `FilterParser.ParseDecidesGrammar` | apps/api/src/main.rs:644-701 | the parser succeeds on exactly the token lists of the grammar, with the one expression each denotes |
| `FilterParser.OrMeaning` | apps/api/src/main.rs:652-670 | a parsed filter holds exactly if some OR-group has every AND-member hold |
| `FilterParser.ParsedMeaning` | apps/api/src/main.rs:644-670 | the same for whatever the parser returns on a derivable token list |
| `FilterCondition.ConditionRoundTrip` | apps/api/src/main.rs:716-874 | every condition the builder can produce is rebuilt from its printed field, operator and value |
| `FilterCondition.MetadataRoundTrip` | apps/api/src/main.rs:832-870 | the same for tag and param conditions, canonical and legacy keys included |
| `FilterCondition.PlainRoundTrip` | apps/api/src/main.rs:729-831 | the same for plain fields |
| `FilterCondition.BuildDecides` | apps/api/src/main.rs:702-874 | which comparisons are accepted and as what, by a table of operators and of fields in both spellings: a timestamp with its normalized value under any operator but search, a status in lowercase, and every other field, tag and param with its trimmed value unchanged, under equality, inequality and search |
| `FilterCondition.BuildRefused` | apps/api/src/main.rs:702-874 | the reason of a refusal in the order of the checks |
| `FilterCondition.CanonicalKeyStable` | apps/api/src/main.rs:303-371 | a canonicalized key printed in its short or full form canonicalizes to itself |
| `FilterCondition.CanonicalIsKeyText` | apps/api/src/main.rs:303-357 | an accepted key is made of key characters and dots, and a dotted one is kept as it is |
| `RunFilter.ParseRunFilterExpr` | apps/api/src/main.rs:876-909 | the entry point composes trimming, limits, tokenizer and parser as specified |
| `RunFilter.FilterDecides` | apps/api/src/main.rs:876-909 | what a filter text is read as: nothing exactly if it is blank; an expression exactly if, trimmed, it is at most 2048 bytes and 256 tokens that a syntax tree of the grammar stands for, and then what the tree denotes |
| `RunFilter.FilterRoundTrip` | apps/api/src/main.rs:876-909 | printing any tree with minimal parentheses and escaped values and reading it back gives exactly that tree, or the length or token limit as the error |
| `RunFilter.PrintedDenotes` | apps/api/src/main.rs:652-701 | the printed syntax denotes the tree, left association included |
| `RunFilter.OrMinimal` | apps/api/src/main.rs:652-701 | no token list denoting the same tree is shorter than the printed one |
| `RunFilter.ParsedRoundTrip` | apps/api/src/main.rs:876-909 | every tree an accepted text denotes survives printing and reading back, with no more tokens than the text |
| `TokenBucket.HttpRateLimiter.constructor` | apps/api/src/main.rs:6494-6500 | no buckets at first |
| `TokenBucket.HttpRateLimiter.Check` | apps/api/src/main.rs:6521-6543 | refills, admits exactly if a token is there, takes it, and otherwise reports the rounded wait |
| `TokenBucket.HttpRateLimiter.PruneStale` | apps/api/src/main.rs:6546-6552 | drops exactly the buckets idle for 300 seconds or more |
| `TokenBucket.LevelBounds` | apps/api/src/main.rs:6525-6534 | tokens stay between zero and capacity, and refilling in two steps is refilling in one |
| `TokenBucket.AdmittedConserves` | apps/api/src/main.rs:6521-6543 | in any run of calls, admitted plus remaining tokens are at most the starting tokens plus the refill |
| `TokenBucket.WindowBound` | apps/api/src/main.rs:6521-6543 | in any run with nondecreasing times, the calls of a key admitted between any two events number at most capacity + rate * elapsed |
| `TokenBucket.AnyTimesBound` | apps/api/src/main.rs:6521-6543 | with times in any order, the calls of a key admitted between any two events of any run number at most capacity + rate * (the sum of its forward jumps in time) |
| `TokenBucket.DeniedPollsInvisible` | apps/api/src/main.rs:6525-6543 | removing every denied call from a run leaves all levels, hence all later verdicts, the same |
| `TokenBucket.PruneInvisible` | apps/api/src/main.rs:6546-6552 | with capacity at most 300 * rate a prune changes no level |
| `TokenBucket.PruningVisible` | apps/api/src/main.rs:6546-6552 | with a larger capacity some run is decided differently because of a prune |
| `TokenBucket.PruningTransparentIff` | apps/api/src/main.rs:6546-6552 | pruning changes no verdict of any run if and only if capacity <= 300 * rate |
| `TokenBucket.RetryHintIsExact` | apps/api/src/main.rs:1025-1032 | after a denial, a call at or after the reported wait is admitted if nobody took the token, and a second earlier it is not |
| `TokenBucket.RetryHintAtTheEdges` | apps/api/src/main.rs:1025-1032 | without a refill a denied client is told one second and is never admitted again; a wait beyond 64 bits is told as the longest there is |
| `TokenBucket.StaleClockAdmitsTwice` | apps/api/src/main.rs:6522-6523 | a clock read before waiting for the lock: two calls admitted where sorted times admit one, as the forward jumps allow |
| `AuthLimiter.AuthRateLimiter.constructor` | apps/api/src/auth/mod.rs:467-472 | no entries at first |
| `AuthLimiter.AuthRateLimiter.RetryAfterSeconds` | apps/api/src/auth/mod.rs:474-498 | the wait and the updated entry of that client alone; nothing when disabled or unkeyed; valid entries stay valid as time goes on |
| `AuthLimiter.AuthRateLimiter.RecordFailure` | apps/api/src/auth/mod.rs:500-528 | counts the failure within its window; from the maximum on blocks for min(base * 2^min(k, 16), max), k the failures beyond it; valid entries stay valid as time goes on |
| `AuthLimiter.AuthRateLimiter.RecordSuccess` | apps/api/src/auth/mod.rs:530-537 | forgets the client; valid entries stay valid |
| `AuthLimiter.BackoffBounds` | apps/api/src/auth/mod.rs:515-526 | the shift stays in range, the delay lies between the smaller of the two backoffs and the maximum, and more failures never shorten it |
| `AuthLimiter.BackoffDoubles` | apps/api/src/auth/mod.rs:515-526 | the delay at the maximum is the base, each of the next sixteen failures doubles it, later ones keep it, and the maximum caps them all |
| `AuthLimiter.FailuresBlock` | apps/api/src/auth/mod.rs:500-528 | what n failures of one client within one window store: the window of the first, the count n, and no block below the maximum, one of min(base * 2^min(k, 16), max) from the last failure k beyond it |
| `AuthLimiter.RetryHintWithinASecond` | apps/api/src/auth/mod.rs:474-498 | the wait a blocked client is told is at least a second and less than a second short; after it the client is let in exactly if the block or the window has ended, and one second later in any case |
| `AuthLimiter.BlockServed` | apps/api/src/auth/mod.rs:486-494 | after a served block a client starts a new window with no failures |
| `AuthLimiter.WindowRestarts` | apps/api/src/auth/mod.rs:481-512 | a window older than its length counts for nothing: the client is let in, and a failure is the first of a new window |
| `AuthLimiter.CheckKeepsValid` | apps/api/src/auth/mod.rs:474-498 | one check keeps that an entry is blocked exactly if its failures reached the maximum, and for no longer than they earn |
| `AuthLimiter.FailKeepsValid` | apps/api/src/auth/mod.rs:500-528 | one failure keeps it too |
| `AuthLimiter.ReachableValid` | apps/api/src/auth/mod.rs:474-537 | after any history of checks, failures and successes of all clients at nondecreasing times, every entry is blocked exactly if its failures reached the maximum, and for no longer than they earn |
| `AuthLimiter.BlockNeverShrinks` | apps/api/src/auth/mod.rs:500-528 | within a window another failure never ends a block earlier |
| `AuthLimiter.BlockHonouredIff` | apps/api/src/auth/mod.rs:482-484 | a block is honoured to its end if and only if the window outlives it |
| `AuthLimiter.BlockClearedEarly` | apps/api/src/auth/mod.rs:482-484 | a configuration that lets a blocked client back in after 61 of 100 seconds |
| `AuthLimiter.AdmittedBound` | apps/api/src/auth/mod.rs:474-528 | from any valid entry, a client with non-overlapping failing attempts gets at most max_failures * (T/d + 2) of them admitted in a span T, d the least of window and backoffs |
| `AuthLimiter.HistoryBound` | apps/api/src/auth/mod.rs:474-537 | in any history of all clients from an empty limiter, between any two calls a client whose calls there are failing attempts, one after the other, has at most max_failures * (T/d + 2) of them let through |
| `AuthLimiter.AdmittedWithinBudget` | apps/api/src/auth/mod.rs:474-528 | the inductive form: admitted failures are at most the room left plus the budget since the counter's origin |
| `Idempotency.IdempotencyStore.constructor` | apps/api/src/services/idempotency.rs:80-88 | empty at first |
| `Idempotency.IdempotencyStore.CheckAndRecord` | apps/api/src/services/idempotency.rs:91-178 | the three lock sections in a row |
| `Idempotency.IdempotencyStore.CheckOnly` | apps/api/src/services/idempotency.rs:181-202 | new, duplicate or conflict, recording nothing |
| `Idempotency.IdempotencyStore.ClearRun` | apps/api/src/services/idempotency.rs:228-237 | forgets the run's batches and sequence and nothing else |
| `Idempotency.StoreIsFirsts` | apps/api/src/services/idempotency.rs:91-178 | after non-overlapping calls the store holds each key's first record and each run's highest sequence: duplicates and conflicts change nothing |
| `Idempotency.ServeGivesOwed` | apps/api/src/services/idempotency.rs:91-178 | every call gets the outcome its predecessors owe it; out of order means 0 < seq < the highest seen |
| `Idempotency.ExactlyFirstProcesses` | apps/api/src/services/idempotency.rs:33-36 | a call processes exactly if no earlier call had its key |
| `Idempotency.SequenceMonotone` | apps/api/src/services/idempotency.rs:131-158 | under every interleaving a run's sequence never falls and is at least every recorded batch's |
| `Idempotency.RecordedKeyTurnsAway` | apps/api/src/services/idempotency.rs:102-178 | once a key is recorded no call that reads later is told to process it |
| `Idempotency.ToldToProcessIff` | apps/api/src/services/idempotency.rs:102-178 | under every interleaving a call is told to process if and only if its key was not recorded when it read |
| `Idempotency.ExactlyOneProcessesIff` | apps/api/src/services/idempotency.rs:102-178 | once all calls of a key are done, exactly one was told to process if and only if no two of them read before the key was recorded |
| `Idempotency.UninterruptedCall` | apps/api/src/services/idempotency.rs:91-178 | three sections with nothing in between are the uninterrupted call |
| `Idempotency.OverlapProcessesTwice` | apps/api/src/services/idempotency.rs:102-178 | the failing instance of `ExactlyOneProcessesIff`: two calls that read before either records both process, and the second payload replaces the first |
| `PayloadHash.ComputePayloadHash` | apps/api/src/services/idempotency.rs:240-305 | the four sort-and-feed loops hash exactly the specified bytes |
| `PayloadHash.Feed` | apps/api/src/services/idempotency.rs:252-256 | a loop appends the bytes of its items in order |
| `PayloadHash.EventsOrderIndependent` | apps/api/src/services/idempotency.rs:277-302 | permuting events never changes the hashed bytes |
| `PayloadHash.MetricsOrderIndependentIff` | apps/api/src/services/idempotency.rs:246-256 | permuting metrics never changes them if and only if no (name, step) carries two values |
| `PayloadHash.PairsOrderIndependentIff` | apps/api/src/services/idempotency.rs:258-274 | permuting params or tags never changes them if and only if any two of the same name give the same bytes in either order |
| `PayloadHash.TiedPairsCommute` | apps/api/src/services/idempotency.rs:258-274 | for values of one length that means equal values |
| `PayloadHash.PreimageOrderIndependent` | apps/api/src/services/idempotency.rs:240-305 | a payload resubmitted in another order hashes to the same bytes |
| `PayloadHash.PreimageCollides` | apps/api/src/services/idempotency.rs:252-274 | without length prefixes two different payloads share their bytes: the failing case of `SameBytesIff`, whose shapes differ |
| `PayloadHash.SameBytesIff` | apps/api/src/services/idempotency.rs:246-305 | payloads with as many items and strings of the same lengths, position by position in sorted order, have the same bytes if and only if they have the same metrics (without timestamps), the same params and tags, and the same events up to a missing step or timestamp standing for zero |
| `PayloadHash.SameContentPermutes` | apps/api/src/services/idempotency.rs:246-305 | the same content is the same metrics, params and tags in some order |
| `PayloadHash.EmitInjective` | apps/api/src/services/idempotency.rs:252-256 | items that emit as many bytes position by position emit the same bytes only item by item |
| `SortedEmission.OrderIndependentIff` | apps/api/src/services/idempotency.rs:246-302 | bytes emitted in stable sorted order are independent of the input order exactly if tied items commute |
| `Limits.CardinalityTracker.constructor` | apps/api/src/services/limits.rs:150-165 | an empty tracker within its caps |
| `Limits.CardinalityTracker.ValidateBatch` | apps/api/src/services/limits.rs:170-300 | the two loops leave the specified sets and lists, decide every name and tag as `ValidatedDecides` says, and keep the caps |
| `Limits.CardinalityTracker.ClearRun` | apps/api/src/services/limits.rs:312-316 | forgets the run alone |
| `Limits.CardinalityTracker.ClearAll` | apps/api/src/services/limits.rs:318-324 | forgets everything |
| `Limits.CapsAlways` | apps/api/src/services/limits.rs:170-324 | from an empty tracker no history of calls takes a run or a project past its limits |
| `Limits.ValidateKeepsCaps` | apps/api/src/services/limits.rs:170-274 | one batch keeps them |
| `Limits.ValidatePartitions` | apps/api/src/services/limits.rs:184-274 | accepted and dropped lists partition the input in order, by a verdict on the item alone, and any drop comes with a warning |
| `Limits.ScanTagsPartitions` | apps/api/src/services/limits.rs:184-242 | the tag loop, from any state, splits its input by the verdict read off its final sets |
| `Limits.ScanNamesPartitions` | apps/api/src/services/limits.rs:245-274 | the metric loop likewise |
| `Limits.ValidatedDecides` | apps/api/src/services/limits.rs:182-274 | each name is accepted exactly if it is short enough and is in use by the run or accepted earlier in the batch, or fewer names than the limit are; each tag likewise by its lengths, its key in the run and its pair in the project; the sets afterwards are those before and what was accepted; other runs and projects are untouched |
| `Limits.NothingDroppedNeedlessly` | apps/api/src/services/limits.rs:182-274 | names short enough that fit beside those in use are all accepted, and tags likewise |
| `Limits.WarningsDecided` | apps/api/src/services/limits.rs:184-274 | exactly the warnings, in order: one for each tag and name too long, and one where the first drop of its kind was for a limit |
| `Limits.RevalidateAccepted` | apps/api/src/services/limits.rs:170-274 | submitting what was accepted again accepts all, warns of nothing and changes nothing |
| `Downsample.DownsamplePoints` | apps/api/src/services/metrics.rs:85-144 | the result is the points one by one when few enough, and otherwise the aggregates of the occupied buckets sorted by label; `DownsampleExact` says which points those are |
| `Downsample.DownsampleExact` | apps/api/src/services/metrics.rs:85-144 | over the limit every aggregate has the count, exact mean, extremes and label of exactly the points of one of `max_points` equal parts of the step range, the last part closed, and every part with a point has an aggregate; within the limit every point stands for itself |
| `Downsample.GroupIntoBuckets` | apps/api/src/services/metrics.rs:113-120 | the map holds exactly the occupied buckets, each with its values in input order |
| `Downsample.AggregateBuckets` | apps/api/src/services/metrics.rs:122-139 | one aggregate per bucket, whatever the order the map is walked in |
| `Downsample.DownsampleConserves` | apps/api/src/services/metrics.rs:85-144 | at most max_points aggregates, counts add up to the points, weighted means to the total, min <= mean <= max, extremes drawn from the series |
| `Downsample.DownsampleCovers` | apps/api/src/services/metrics.rs:85-144 | every point is spanned by an aggregate labelled no later than it |
| `Downsample.ExtremesKept` | apps/api/src/services/metrics.rs:122-139 | the global minimum and maximum survive |
| `Downsample.LabelsOrdered` | apps/api/src/services/metrics.rs:122-144 | labels never fall; with a step range of at least max_points they rise strictly and the result is the same for every walk of the map |
| `Downsample.ResultStrictIff` | apps/api/src/services/metrics.rs:113-144 | over the limit, the labels of a result rise strictly if and only if no two points of different buckets share a label |
| `BucketGrid.Grid.IndexIs` | apps/api/src/services/metrics.rs:117-118 | a step goes into bucket k exactly if k * range <= (step - low) * count and either k is the last bucket or (step - low) * count < (k + 1) * range |
| `BucketGrid.Grid.LabelIs` | apps/api/src/services/metrics.rs:133-133 | a bucket is labelled with the last step at or before its start |
| `BucketGrid.Grid.IndexMonotone` | apps/api/src/services/metrics.rs:117-118 | later steps never fall into earlier buckets |
| `BucketGrid.Grid.LabelBelow` | apps/api/src/services/metrics.rs:116-132 | a bucket's label is at most every step in it |
| `BucketGrid.Grid.LabelsDistinctIff` | apps/api/src/services/metrics.rs:132-132 | over all buckets of a grid, labels are distinct if and only if the range is at least the number of buckets, or there is one bucket |
| `RunMetrics.RunSeries.AddPoint` | apps/api/src/services/metrics.rs:159-164 | appends to the series of the point's name |
| `RunMetrics.AddedInOrder` | apps/api/src/services/metrics.rs:159-164 | each series goes on with the points of its name in the order they were added |
| `RunMetrics.RunSeries.QueryOne` | apps/api/src/services/metrics.rs:191-213 | range filter with both ends included, total, flag and downsampling of one series; a limit of zero is answered for an empty selection |
| `RunMetrics.RunSeries.QueryAll` | apps/api/src/services/metrics.rs:174-216 | every name once, and without a range the totals add up to the stored points |
| `RunMetrics.RunSeries.QueryNamed` | apps/api/src/services/metrics.rs:174-216 | the requested names that exist, in the order given |
| `RunMetrics.TotalAddedAll` | apps/api/src/services/metrics.rs:159-164 | adding points loses none, whatever their names |
| `GrpcStore.ConservedFromStart` | apps/api/src/services/ingest.rs:211-269 | over every interleaving of lock sections a run's count is its stored points plus those of calls that counted and have not stored, stored points are exactly those of accepted calls, and a batch key is owned by at most one call |
| `GrpcStore.AlwaysConserved` | apps/api/src/services/ingest.rs:211-269 | the invariant, kept along every run from any state that has it |
| `GrpcStore.QuietTotals` | apps/api/src/services/metrics.rs:174-216 | with no call between counting and storing, the totals of an unfiltered query add up to the count |
| `GrpcStore.StoredIff` | apps/api/src/services/ingest.rs:211-269 | in every reachable world a call's points are stored if and only if each is a point of some accepted call of its run; and a deduplicated call has exactly one other call owning its key, whatever that carries |
| `GrpcStore.RepeatNeverLostIff` | apps/api/src/services/ingest.rs:211-229 | for two messages that share a key: in every world where the first was accepted and the second deduplicated, the second's points are stored, if and only if it carries nothing, or is for the same run and carries only points of the first |
| `GrpcStore.UncoveredIsLost` | apps/api/src/services/ingest.rs:211-229 | the failing case, for any two such messages: accepted, then deduplicated with other points, which are stored nowhere |
| `GrpcStore.SpentForever` | apps/api/src/services/ingest.rs:211-250 | a key whose owner was refused stays so: over every later interleaving no call of that key is counted or stored, and each one answered is answered as a repeat |
| `GrpcStore.InMemoryStore.Init` | apps/api/src/services/ingest.rs:126-196 | creates the run or resumes the existing one unchanged |
| `GrpcStore.InMemoryStore.Finish` | apps/api/src/services/ingest.rs:478-524 | sets the status and reports the count, or the run is unknown |
| `GrpcStore.InMemoryStore.MarkSection` | apps/api/src/services/ingest.rs:211-229 | the key is marked or the call deduplicated |
| `GrpcStore.InMemoryStore.CountSection` | apps/api/src/services/ingest.rs:235-250 | the count goes up, or the run is unknown or not running |
| `GrpcStore.InMemoryStore.StoreSection` | apps/api/src/services/ingest.rs:253-269 | the points are appended one by one |
| `GrpcStore.InMemoryStore.LogMetrics` | apps/api/src/services/ingest.rs:199-284 | an uninterrupted call is a path of the machine; it is a repeat exactly if its key was seen, else refused exactly if its run is unknown or not running, and else adds its points to the count and the series; whatever the answer its key is seen afterwards |
| `GrpcStore.KeySharedIff` | apps/api/src/services/ingest.rs:214-214 | a batch shares its joined key with some other (run, batch) pair if and only if its run id or its batch id holds a colon |
| `GrpcStore.EarlyBatchIsLost` | apps/api/src/services/ingest.rs:211-239 | the key is spent before the run is looked up: a batch sent before its run exists leaves nothing, and in every later world every other call of its key is waiting or answered as a repeat |
| `Cidr.RuleMeaning` | apps/api/src/auth/mod.rs:398-463 | a rule exists exactly for prefixes within the width and matches exactly the addresses of its family that agree after division by 2^(width - prefix) |
| `Cidr.ParsedMeaning` | apps/api/src/auth/mod.rs:372-463 | the same for an entry as written; without a slash it matches one address |
| `Cidr.EntryDecides` | apps/api/src/auth/mod.rs:372-400 | an entry names an address with all of its bits, or the address and the prefix length around the first slash |
| `Cidr.MaskedEqualIff` | apps/api/src/auth/mod.rs:403-441 | at any width, equality under the shifted mask is equality of quotients; no shift reaches the width |
| `Cidr.LongerPrefixNarrows` | apps/api/src/auth/mod.rs:431-463 | a longer prefix of the same address matches a subset |
| `Paging.EventPageSplits` | apps/api/src/main.rs:5975-5988 | a page shows the next rows and its cursor leaves exactly the others |
| `Paging.EventPageExact` | apps/api/src/main.rs:5975-5988 | a page shows as many rows past the cursor as asked for, from 1 to 500, tells whether there are more, and its cursor is the id of its last row |
| `Paging.EventWalkComplete` | apps/api/src/main.rs:5975-5988 | following the cursor stops and shows every event past the start once, in order, for any page sizes |
| `Paging.EventWalkFromStart` | apps/api/src/main.rs:5975-5988 | from the beginning, that is the whole list |
| `Paging.LogPageSplits` | apps/api/src/main.rs:6039-6060 | a chart or image page shows the first kept rows of its window; if it says there is more, the next cursor leaves exactly the kept rows not shown |
| `Paging.LogPageExact` | apps/api/src/main.rs:6039-6060 | a chart or image page shows as many as asked for, from 1 to 200, among the next ten times as many events, from 20 to 1000, and tells whether those hold more |
| `Paging.LogWalkExact` | apps/api/src/main.rs:6097-6118 | the walk shows the kept rows without gap or repetition and misses exactly those past its last window |
| `Paging.LogWalkCompleteIff` | apps/api/src/main.rs:6039-6060 | for any page sizes, the walk shows every kept row if and only if each page, started behind the last row shown, has the next row to show (or the last kept row) within its window: a condition on the positions of the kept rows and the sizes alone |
| `Paging.ShownByConstant` | apps/api/src/main.rs:6039-6040 | with one page size, the first j pages show j times that size |
| `Paging.ChartBehindWindow` | apps/api/src/main.rs:6039-6060 | its failing instance: a chart behind twenty other events is not shown by a walk of page size one |
| `Paging.Deduplicate` | apps/api/src/main.rs:6244-6256 | the loop over the seen set yields first occurrences |
| `Paging.UniqueFirst` | apps/api/src/main.rs:6244-6256 | every id once, no other, ordered by first occurrence |
| `Paging.CompareWalkComplete` | apps/api/src/main.rs:6257-6264 | pages at successive offsets concatenate to the first occurrences |
| `Paging.ComparePageExact` | apps/api/src/main.rs:6257-6264 | a page shows as many of the remaining ids as asked for, up to 1000 |
| `Paging.AfterIsSuffix` | apps/api/src/storage/sqlite.rs:2109-2163 | the rows past any cursor are a suffix of the list |
| `DerivedSeries.SanitizeWindow` | apps/ui/src/lib/computedSeries.ts:7-10 | the window rounded down, but at least 2 and at most 512, and 2 where it is not finite |
| `DerivedSeries.ComputeEma` | apps/ui/src/lib/computedSeries.ts:12-33 | the loop computes the running average where the input is finite and leaves gaps elsewhere |
| `DerivedSeries.EmaBounded` | apps/ui/src/lib/computedSeries.ts:12-33 | for every window, defined exactly where the input is, and within any bounds of the finite values so far |
| `DerivedSeries.EmaRising` | apps/ui/src/lib/computedSeries.ts:12-33 | on nondecreasing input with gaps, nondecreasing and never above the input |
| `DerivedSeries.EmaRecurrence` | apps/ui/src/lib/computedSeries.ts:12-33 | the average starts with the first finite value; each later one weighs 2 against `w - 1` for the average at the finite value before it |
| `DerivedSeries.ComputeDelta` | apps/ui/src/lib/computedSeries.ts:35-45 | differences of neighbouring finite values, gaps elsewhere |
| `DerivedSeries.DeltasTelescope` | apps/ui/src/lib/computedSeries.ts:35-45 | over an all-finite stretch the deltas add up to the difference of its ends |
| `DerivedSeries.DeltaDefined` | apps/ui/src/lib/computedSeries.ts:35-45 | a delta is there exactly for two finite neighbours |
| `DerivedSeries.ComputePctChange` | apps/ui/src/lib/computedSeries.ts:47-56 | relative changes where both values are finite and the first is not zero |
| `DerivedSeries.PctChangeInverts` | apps/ui/src/lib/computedSeries.ts:47-56 | a percentage is there exactly for two finite neighbours of which the earlier is not zero; applied to the size of the previous value it gives the value back, and its sign is the direction |
| `DerivedSeries.ComputeCumulativeAvg` | apps/ui/src/lib/computedSeries.ts:58-73 | the loop computes the mean of the finite prefix |
| `DerivedSeries.CumulativeAvgExact` | apps/ui/src/lib/computedSeries.ts:58-73 | defined exactly where the input is, and count times the mean is the sum |
| `DerivedSeries.ComputeDerivedSeries` | apps/ui/src/lib/computedSeries.ts:75-94 | each mode gives its own series over the sanitized window, one output per input; raw mode copies; no output where the input has none; averages wherever it has one |

## Left out

Hypotheses and simplifications:

- Floating point: values, times and levels are exact reals with separate NaN and infinities where the code tests for them; rounding and the order of NaN are not modelled.
- Integer widths: step differences, counters and ids are unbounded; saturating conversions are written out only where a branch depends on them.
- TokenBucket.WindowBound: assumes times nondecreasing in lock order; `AnyTimesBound` drops that, `StaleClockAdmitsTwice` shows the sorted bound then fails. All bounds assume a refill rate of at least zero.
- TokenBucket.RetryHintIsExact: assumes the wait fits 64 bits; the code caps it there.
- AuthLimiter.HistoryBound: in the span considered the client's attempts do not overlap and none succeeds, as the limiter offers no bound otherwise; times are reals, not `Instant`s that can overflow.
- Drain.StreamProcessor.Enqueue: the approximate length cap of the stream is not modelled; an entry it trims is one that is never delivered, which the safety theorems allow.
- Refinement.QueuedRefinesDirect: assumes no store failure, no trimming of the stream and that only requests touch the tables; `Interleaving.InterleavedRefines` drops the last, failures are in the safety, accounting and duplicate theorems; liveness of a failed entry is not claimed because the consumer reads new entries only.
- Interleaving.InterleavedRefines: assumes no store failure, except that the tables' foreign keys, which the bundled SQLite enforces, refuse the first write for a run that is gone; a pass of the processor and a request are one step each, so no deletion falls inside one.
- Processor.CrashSafety: the machine has no run deletion, which removes a run's rows and recorded ids; the invariants and `ActionsGain` are for runs that are not deleted. Deletions are in `Interleaving`.
- Histories.OwnEffect: the writes of creating and ending a run are assumed to succeed; a failed one is an error of that request, or for the events only a log line.
- Restart: the idempotency store and the tracker are in memory and histories do not restart the API; after a restart a batch sent again is new to the API, processed again in direct mode and stopped by the processor's recorded ids in queued mode.
- Deletion is one step that succeeds; the source deletes table by table outside a transaction.
- The write rate limit at the head of the ingest handler; the limiter itself is `TokenBucket`.
- Downsample.DownsamplePoints: needs `max_points` of at least one unless there are no points, since the code subtracts one from it.
- FilterCondition.ConditionRoundTrip: date normalization is a parameter assumed to leave its own results unchanged; date parsing itself is library code.
- ApiServer.Server.HttpIngestBatch: the handler's store calls are not interleaved with other requests; interleavings are modelled for the idempotency store, the gRPC store and the processor.

Not modelled:

- Access control, owner checks, routing, cookies, CORS, audit events and tracing.
- SHA-256, JSON parsing of structured events, address and integer parsing, and the wording of warnings: parameters of the model. The wording cuts names at byte 32, which would panic inside a multi-byte character.
- The SQL text and the tables other than those the ingest path writes; `updated_at`, `params_count` and row ids; the timestamp and batch id of a ClickHouse point.
- The best-effort PostgreSQL synchronization in the processor and the shadow writes of the gRPC service.
- `log_params`, `log_tags` and `heartbeat` of the gRPC service, the artifact calls and the comparison data behind the compared run ids: easy members.
- The copy of the trusted-proxy rules in `apps/api/src/main.rs`, which is the same code.
