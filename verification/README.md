# Discogs SQL loader: a verified model

The loader consumes Discogs records and terminal markers, keeps four entity tables (`artists`,
`labels`, `masters`, `releases`) and a derived graph in PostgreSQL, and refreshes the relations
computed from that graph once all four dumps of an extraction have arrived. This project models
the parts of it whose correctness no single function shows, and proves what they keep over every
run. Database transactions are atomic steps: each either commits or leaves every table as it was.

The files, from the ground up:

| file | what it holds |
|---|---|
| `Wrappers`, `Versions` | option and result shapes; dump versions, their calendar order and their text order |
| `RefreshProtocol`, `RefreshInvariant`, `RefreshRuns`, `RefreshRows`, `RefreshStore` | the durable refresh: cursor, latches and jobs as functions, the joint invariant, all runs of producers, scans, workers and crashes, what each statement reads and writes column by column, and the same operations as methods over mutable tables |
| `TerminalSignal` | the `extraction_complete` handler: purge or veto, record, acknowledge, with restarts and redeliveries |
| `PoisonIsolation`, `RetryConvergence` | narrowing a failed batch to its poison records; deliveries broken off and repeated |
| `Rows`, `RowOrder`, `KeyedTables` | graph rows, their keys and owners; the sort order of every statement; tables filled by `ON CONFLICT DO NOTHING` |
| `Derivation`, `DerivationFacts`, `DerivationExact`, `DocumentSays` | the vertex and edge rows one document asserts, what every derivation guarantees to the writer, which of its readers give each row, and what the JSON itself must say for it |
| `GraphWrites`, `Catalog`, `Purge`, `CatalogStore` | writing a batch's graph rows, batch and single-record transactions, the stale-row purge; the same as methods on one mutable store |
| `Reconcile`, `ReconcileFacts` | the keyset sweep and the recomputation of `member_of` and `same_as` |
| `CatalogHistory`, `CatalogGuarantees`, `CatalogRows`, `Endpoints` | all histories of batches, single writes, purges and passes against the simple form "derive every stored document"; what one event does to each column and row |
| `LockOrder`, `BatchLocks` | concurrent writers taking row locks one at a time |
| `Counters`, `TagCounters` | the grouped `first_year` body, over arbitrary tables and over those a history leaves, and the degree tables |

Worker clocks, the database clock, claim tokens, skipped locked rows, write outcomes, native
identities, text normalisation and the media taxonomy are parameters; every theorem holds for all
of them. Where a worker's clock and the database's disagree, safety rests on token and epoch alone.

## Where the code does less than its documentation says

Each of these is proved, with the exact condition under which the documented behaviour does hold.

- `tableinator/graph_counters.py:137-141` calls the reconciliation prefilters exact. The one for
  `member_of` is. The one for `same_as` looks at release-level credits only, while derivation also
  takes identities from track credits, so a pass deletes an identity that only tracks name and no
  redelivery brings it back (`AWrittenIdentityIsLost`, `RedeliveryChangesNoGraph`); after any
  history the pass is exact iff no such identity stands alone (`IdentitiesAreExactAfterAPassExactlyWhen`).
- `tableinator/graph_writer.py:27-32` says no deadlock cycle can form. That rests on sorted rows, and the
  updates of hash-unchanged rows are not sorted: as far as entity, vertex and edge rows go, a batch
  can be finished beside any writers that keep the order iff the entity rows it touches come in
  ascending id (`BatchIsSafeExactlyWhenItsRowsAscend`), which they do when every row passes the hash
  gate; otherwise it can deadlock with another batch (`AnUnsortedBatchCanDeadlockWithABatch`).
- A recorded veto is said to hold for every redelivery (`tableinator/tableinator.py:1487-1490`). It
  does not stop a delivery of the same signal that had already read the latch
  (`ADecidedDeliveryPurgesPastAVeto`), nor a process whose one startup probe failed to find the
  latch relation (`tableinator/extraction_latch.py:390-395`): that process neither reads nor records
  vetoes (`tableinator/tableinator.py:1280-1281`, `1293-1294`), while the durable protocol, probed
  separately, still commits the signal (`AVetoIsForgottenByAFailedProbe`). The veto holds iff
  neither can happen (`VetoHoldsExactlyWhenRemembered`).
- `credited_to` is deliberately not recomputed for a payload without a companies block; it equals
  the simple form iff `CreditsFromScratchExactlyWhenStated` says so.

## Model

| member | source | states |
|---|---|---|
| Versions.DayNumberIsCalendarOrder | tableinator/durable_refresh.py:69-83 | day numbers of real dates order as year, month, day do |
| Versions.TextOrderIsCalendarOrder | tableinator/durable_refresh.py:221-227 | comparing two valid version texts is comparing their dates, and distinct texts are distinct dumps |
| Versions.TrimIsTheCore | tableinator/durable_refresh.py:69-83 | stripping takes blanks off both ends and nothing else |
| Versions.AcceptedVersions | tableinator/durable_refresh.py:69-83 | an eight-digit text, once stripped, is accepted iff its year, month and day are a calendar date, leap years included, and is then its own key |
| Versions.OtherTextsAreRefused | tableinator/durable_refresh.py:69-83 | any other text is refused |
| RefreshInvariant.ReconcileKeepsInv | tableinator/durable_refresh.py:206-242 | placing all legacy latches keeps generations increasing with version, the cursor's latch at the cursor's generation and at most one active job, there and unstamped; nothing accepted is lost |
| RefreshInvariant.RecordSignalKeepsInv | tableinator/durable_refresh.py:253-289 | recording any signal keeps the joint invariant, and its disagreement error is unreachable |
| RefreshInvariant.RecordVetoKeepsInv | tableinator/extraction_latch.py:397-407 | a veto, which may create a latch without a generation, keeps the joint invariant |
| RefreshInvariant.ClaimKeepsInv | tableinator/durable_refresh.py:292-349 | a scan keeps the joint invariant and its branch for a job that is not current is dead |
| RefreshInvariant.CommitKeepsInv | tableinator/durable_refresh.py:383-408 | a commit keeps the joint invariant and, past its fence, neither row-count error can be raised |
| RefreshInvariant.FailureKeepsInv | tableinator/durable_refresh.py:436-465 | marking a failed pass keeps the joint invariant |
| RefreshInvariant.HeartbeatKeepsInv | tableinator/durable_refresh.py:411-433 | renewing a lease keeps the joint invariant |
| RefreshRuns.StepKeepsSound | tableinator/durable_refresh.py:169-465 | every step of every producer, scanner and worker keeps the invariant, the claim order and the publication order |
| RefreshRuns.NoObligationIsLost | tableinator/durable_refresh.py:169-289 | in every reachable state a dump has an active job iff it is the cursor's, holds all four signals and is unstamped |
| RefreshRuns.ScheduledIsNeverDropped | tableinator/durable_refresh.py:253-289 | once a call reports scheduled, that dump is in every later state active, completed and stamped, or behind a strictly newer accepted dump |
| RefreshRuns.OnlyTheLatestClaimOwns | tableinator/durable_refresh.py:352-366 | epochs of a dump's claims strictly increase and no claim but the latest passes the ownership check, on any clock |
| RefreshRuns.ReclaimedClaimNeverPublishes | tableinator/durable_refresh.py:292-408 | a claim whose lease is gone never regains it and never commits a pass in any later run |
| RefreshRuns.PublicationNeverGoesBack | tableinator/durable_refresh.py:369-408 | committed passes have strictly increasing dumps and generations, each stamped, so each dump publishes at most once |
| RefreshRuns.CommitPublishesExactlyUnderTheFence | tableinator/durable_refresh.py:383-408 | a commit publishes and stamps iff its claim holds the pass and passes the fence; otherwise it changes nothing |
| RefreshRows.StartReadsEveryColumn | tableinator/durable_refresh.py:352-380 | a pass may start iff cursor generation and version, job state, token and epoch are the claim's and the lease has not expired |
| RefreshRows.CommitReadsEveryColumn | tableinator/durable_refresh.py:383-408 | a pass may commit iff the same columns hold and the dump's latch and job rows carry the claim's generation, the latch unstamped |
| RefreshRows.CommitWritesTwoRows | tableinator/durable_refresh.py:394-408 | a commit stamps the one latch, completes the one job, clears its lease and changes no other column |
| RefreshRows.ExpiredLeaseIsRefused | tableinator/durable_refresh.py:352-408 | a lease whose end has passed neither starts nor publishes, reclaimed or not |
| RefreshRows.ScanReadsEveryColumn | tableinator/durable_refresh.py:298-316 | a scan finds nothing iff some lease is live or no unlocked job is due; else it takes a due job of the newest generation |
| RefreshRows.ClaimWritesTheRow | tableinator/durable_refresh.py:317-349 | the picked row is superseded under another generation, retried after its backoff when it was leased, else leased for 120 s under the next epoch and attempt |
| RefreshRows.BackoffDoubles | tableinator/durable_refresh.py:329 | the delay is one second, doubles with each of the first eight attempts and stays at 256 |
| RefreshRows.HeartbeatWritesTheExpiry | tableinator/durable_refresh.py:411-433 | a heartbeat moves the end of its own live lease to 120 s from now, and otherwise reports the lease lost and writes nothing |
| RefreshRows.FailureWritesTheRow | tableinator/durable_refresh.py:436-465 | a failed pass that still holds its lease is retried after the backoff of its attempts if the cursor is still its own, else superseded |
| RefreshRows.AdvanceWritesRows | tableinator/durable_refresh.py:184-194 | moving the cursor supersedes exactly the active jobs of older generations |
| RefreshRows.ScheduleWritesTheRow | tableinator/durable_refresh.py:197-203 | a new job is pending, due now, under no attempt, epoch or lease, and a job already there is left alone |
| RefreshRows.RecordingWritesOneSignal | tableinator/durable_refresh.py:253-289 | recording adds the signal to its dump's row, new or not, and no other row's signals, and no stamp or veto, change |
| RefreshRows.RecordingSchedulesAtOnce | tableinator/durable_refresh.py:197-203 | a dump scheduled for the first time has a pending job of the cursor's generation, due now |
| RefreshRows.ReconcileRefusesByKey | tableinator/durable_refresh.py:226-233 | placing legacy rows fails iff an unplaced row has a digit key that is no date, or is unfinished under any other key that is no version |
| RefreshRows.VetoWritesTheRow | tableinator/extraction_latch.py:397-407 | a veto adds its type to the dump's row, new or not, and is read back from there |
| RefreshRuns.OvertakenPassChangesNothing | tableinator/durable_refresh.py:369-380 | a pass overtaken by a newer dump before its fence changes no relation, latch or job in any continuation |
| RefreshRuns.RedeliveryIsIdempotent | tableinator/durable_refresh.py:253-289 | recording a recorded signal again changes no table and reports the same answer |
| RefreshRuns.BackoffIsBounded | tableinator/durable_refresh.py:456 | retry delays are between one and 256 seconds |
| RefreshRuns.TwoScansRecover | tableinator/durable_refresh.py:292-349 | from any reachable state with an active job, one scan after lease expiry and one 256 s later, run back to back, hand out the dump's next claim |
| RefreshRuns.AnyTwoScansRecover | tableinator/durable_refresh.py:292-349 | once the holder's heartbeats stop, any continuation with two scans so spaced and free to lock the row, whatever else runs around them, has handed the dump out again, completed it, or accepted a newer one |
| RefreshStore.Store.ReconcileLegacy | tableinator/durable_refresh.py:206-242 | the loop over legacy rows leaves the cursor, latches and jobs the specification gives, or raises with nothing changed |
| RefreshStore.Store.RecordDurableSignal | tableinator/durable_refresh.py:253-289 | the transaction leaves exactly the specified tables and report, or its error and the old tables |
| RefreshStore.Store.RecordPurgeVeto | tableinator/extraction_latch.py:397-407 | the single statement leaves exactly the specified latch row |
| RefreshStore.Store.ClaimDueJob | tableinator/durable_refresh.py:292-349 | the scan leaves the specified job row and returns the specified claim |
| RefreshStore.Store.BeforeRefresh | tableinator/durable_refresh.py:369-380 | the early fence raises iff the lease is not owned or the cursor moved on |
| RefreshStore.Store.BeforeCommit | tableinator/durable_refresh.py:383-408 | the final fence completes job and latch together, or raises with nothing changed |
| RefreshStore.Store.RenewLease | tableinator/durable_refresh.py:411-433 | a heartbeat extends exactly the lease it owns |
| RefreshStore.Store.MarkFailed | tableinator/durable_refresh.py:436-465 | a failure schedules the retry or retires the job as specified |
| TerminalSignal.NoAckWithoutItsObligation | tableinator/tableinator.py:1522-1655 | over all runs with restarts and redeliveries an acknowledged signal is committed, and a dump with all four acknowledged is active, stamped or fenced by a newer one |
| TerminalSignal.VetoHolds | tableinator/tableinator.py:1491-1515 | with a veto recorded, no delivery already decided, and this and every later process having found the latch, no run ever purges that table for that dump |
| TerminalSignal.VetoHoldsExactlyWhenNoneHadDecided | tableinator/tableinator.py:1265-1304 | in a process that found the latch a purge can follow a recorded veto iff a delivery had already decided or a later process may fail to find it |
| TerminalSignal.VetoHoldsExactlyWhenRemembered | tableinator/tableinator.py:1265-1304 | the same for every process: without the latch the veto holds iff the process's own memory of rejected records does, and no vetoed signal can be acknowledged |
| TerminalSignal.DecidesByEveryReason | tableinator/tableinator.py:1265-1304 | a delivery is vetoed iff its type is flagged, its dead-letter queue is unreadable or not empty, or the known latch is unreadable or records a veto; else it goes on to purge |
| TerminalSignal.WaitingDeadLettersHoldThePurge | tableinator/tableinator.py:1273-1278 | while a type's dead letters wait and no delivery has decided, no run without clearing them purges it, whatever else happens |
| TerminalSignal.FlagIsSpentOnlyByItsVeto | tableinator/tableinator.py:1522-1655 | a rejected record is forgotten only by a restart or by acknowledging a vetoed signal of its type |
| TerminalSignal.AckedIsPurgedOrVetoed | tableinator/tableinator.py:1491-1515 | in processes that find the latch a signal is acknowledged only after its purge committed or its veto is on the latch |
| TerminalSignal.AFailedProbeForgetsTheVeto | tableinator/extraction_latch.py:390-395 | from any state a restart whose probe fails, a cleared queue and one redelivery purge, recorded veto or not |
| TerminalSignal.AVetoIsForgottenByAFailedProbe | tableinator/tableinator.py:1279-1281 | such a run from the empty service: veto recorded, nobody decided, probe failed, purged |
| TerminalSignal.ADecidedDeliveryPurgesPastAVeto | tableinator/tableinator.py:1491-1515 | a state where a delivery decided before another vetoed is reachable with two copies of one signal in flight |
| TerminalSignal.ConsecutivePurgeVetoes | tableinator/extraction_latch.py:420-437 | the newest-first loop counts the vetoing extractions before the first clean one, skipping those that never reached the table |
| PoisonIsolation.Sink.Write | tableinator/batch_processor.py:361-373 | the sink's attempts and settlements are those of the specification, for an arbitrary write oracle |
| PoisonIsolation.Sink.Isolate | tableinator/batch_processor.py:375-408 | the recursion's attempts and settlements are those of the specification, and it ends |
| PoisonIsolation.WriteSettlesExactly | tableinator/batch_processor.py:361-408 | one settlement per payload in payload order, acknowledged iff committed in exactly one sub-batch, rejected iff it failed alone |
| PoisonIsolation.PoisonIsIsolated | tableinator/batch_processor.py:375-408 | with p poison records of n exactly those are rejected, at the cost of at most 1 + 2·p·⌈log2 n⌉ writes |
| PoisonIsolation.CeilLog2IsTheLeastExponent | tableinator/batch_processor.py:394-396 | the bound's logarithm is the least exponent whose power of two reaches n |
| PoisonIsolation.WriteCommitsHealthyPrefix | tableinator/batch_processor.py:394-408 | whatever broke it off, a write has committed a prefix of the healthy records in batch order, each once |
| PoisonIsolation.WriteAsksInTurn | tableinator/batch_processor.py:361-408 | the whole batch is tried first, then the first half; each attempt is one transaction over the records it names, in turn; a transient failure, or a lone record's, is raised at once |
| RetryConvergence.PrefixAgain | tableinator/batch_writer.py:159-218 | writing a prefix after another leaves what the longer of the two leaves |
| RetryConvergence.RetriesConverge | tableinator/batch_processor.py:375-408 | any number of broken-off deliveries followed by a complete one leaves the database of one undisturbed delivery, update times aside |
| Derivation.TallyMedia | tableinator/graph_derivation.py:539-563 | the loop keeps first-seen order, the first family of each medium and the sum of its quantities |
| Derivation.MediaRows | tableinator/graph_derivation.py:539-563 | one row per distinct medium, in first-seen order |
| Derivation.CompanyRows | tableinator/graph_derivation.py:566-588 | the loop with its seen set keeps the first row of each company and role, in source order |
| Derivation.Credits | tableinator/graph_derivation.py:510-536 | the usable credits in order |
| Derivation.TrackCredits | tableinator/graph_derivation.py:439-468 | the nested loops place every credit of a track or sub-track under its ordinals |
| Derivation.TrackPerformers | tableinator/graph_derivation.py:471-495 | the nested loops place every performer of a track or sub-track under its ordinals |
| DerivationFacts.WalkIsExact | tableinator/graph_derivation.py:439-495 | a row is derived at a pair of ordinals iff the node those ordinals point at holds it, with that node's printed position |
| DerivationFacts.MediaUnitsAreConserved | tableinator/graph_derivation.py:539-563 | media rows are unique per medium and their quantities sum to the units of the entries naming a medium and a family, each counting its stated whole quantity of at least one, else one |
| DerivationFacts.CompanyRowsKeepTheFirst | tableinator/graph_derivation.py:566-588 | every kept row is stated by the first entry with its company and role |
| DerivationFacts.CompanyCreditsAreKept | tableinator/graph_derivation.py:566-588 | no stated company credit is dropped |
| DerivationFacts.CompanyRowsAreDistinct | tableinator/graph_derivation.py:566-588 | no two kept rows share company and role |
| DerivationFacts.DerivedRowsAreOwned | tableinator/graph_derivation.py:138-327 | for every document of every table each row names its own document in its scope column, sits in a replaced relation or an additive one, carries this loader's source, and is alone on its key |
| DocumentSays.DerivationIsExact | tableinator/graph_derivation.py:138-327 | for every document, table and row: the row is derived iff the JSON says it, stated on its keys, shapes and places: usable ids, tags, credits, ordinals and printed positions, summed stated quantities, first-stated companies |
| DocumentSays.VerticesAreExact | tableinator/graph_derivation.py:204-269 | the same for vertex rows, every column: a medium's first family and label, a company's first-stated name and its label page iff its id is all digits |
| KeyedTables.FirstWithSorted | tableinator/graph_writer.py:139-155 | a stable sort keeps the first row offered for every key |
| RowOrder.RowOrderIsTotal | tableinator/graph_writer.py:148-150 | the edge sort key, NULL last, is a strict total order |
| RowOrder.FirstDifferenceDecides | tableinator/graph_writer.py:148-150 | the first column two rows differ in decides, by text or number, and a NULL comes after every value |
| GraphWrites.BatchHasOneRowPerKey | tableinator/graph_writer.py:206-217 | a batch of different documents offers no two rows of one edge key |
| GraphWrites.BatchIsOneByOne | tableinator/graph_writer.py:219-236 | writing a batch at once, all deletes before all inserts, is writing its documents one after another, first spellings of shared vertices included |
| GraphWrites.StatementOrderChangesNothing | tableinator/graph_writer.py:139-155 | one sorted statement per relation in the fixed order leaves the tables of the plain order |
| Catalog.LatestIsTheLastOfEach | tableinator/batch_writer.py:108-110 | deduplication keeps each document once, in its first place, with its last payload |
| CatalogRows.LatestAreTheLasts | tableinator/batch_writer.py:108-110 | a payload survives deduplication iff no later one in the batch is of its document |
| CatalogRows.LatestKeepsFirstPlaces | tableinator/batch_writer.py:108-110 | the survivors come in the order their documents first appear in |
| Catalog.SameRow | tableinator/record_persistence.py:156-230 | batch and single path leave the same entity row iff the content changed or no differing identity is stored |
| Catalog.BatchRefinesSingle | tableinator/batch_writer.py:102-244 | any batch, repeats included, leaves the rows, edges and vertices of its latest messages persisted one at a time in order; an unresolved document rolls all of it back |
| CatalogStore.Store.WriteDocumentGraph | tableinator/graph_writer.py:187-236 | the accumulating loops and the per-relation statements leave exactly the batch's write |
| CatalogStore.Store.ProcessBatch | tableinator/batch_writer.py:102-244 | dedupe, hash gate, refresh, both backfills, sorted upsert and graph write together leave exactly the specified database, or the old one, and sort the batch as reported |
| CatalogStore.Store.PersistRecord | tableinator/record_persistence.py:121-250 | the single-record transaction leaves exactly the specified database and reports a media backfill iff it made one |
| CatalogStore.Store.PurgeDocumentGraph | tableinator/graph_writer.py:239-254 | the sweep over the table's relations deletes exactly this loader's rows of stale documents |
| CatalogStore.Store.PurgeStaleRows | tableinator/record_persistence.py:27-106 | the guards in order, then sweep and delete, leave the specified database and report the rows removed |
| Purge.PurgeIsExact | tableinator/record_persistence.py:34-106 | a purge changes nothing, or removes exactly the stale rows and exactly their documents' scoped edges, and keeps more than one minus the cap of the table |
| Purge.PurgeRefuses | tableinator/record_persistence.py:34-92 | no readable start, a session of zero records, an empty table, no row older than the start, or a share of them at the cap or above: nothing changes |
| Purge.PurgeRemoves | tableinator/record_persistence.py:94-106 | with none of these exactly the rows older than the start go, and with them exactly the edges whose scope column names them |
| CatalogHistory.HistoryKeepsMirror | tableinator/graph_writer.py:187-254 | batches, single writes, purges and passes in any order keep the tables a mirror of the stored documents |
| CatalogGuarantees.IncrementalIsFromScratch | tableinator/graph_writer.py:67-82 | after any history every document-scoped relation but company credits holds a row iff some stored document derives it |
| CatalogGuarantees.RowsAreWhatDocumentsSay | tableinator/graph_writer.py:187-254 | the same, against what the stored JSON says rather than what is derived from it |
| CatalogGuarantees.AdditiveRowsAreNeverMissing | tableinator/graph_derivation.py:167-184 | between passes neither additive relation misses a row a stored document derives |
| CatalogGuarantees.HistoryKeepsIds | tableinator/tableinator.py:1657-1669 | as records without an id are refused, no history stores a document under the empty id |
| CatalogGuarantees.MembershipsAreNeverMissing | tableinator/graph_derivation.py:160-192 | passes included, after any history of received records no membership a stored artist asserts is missing |
| CatalogGuarantees.MembershipsAreExactAfterAPass | tableinator/graph_counters.py:392-469 | a pass after any such history leaves memberships exactly what the stored artists assert |
| CatalogGuarantees.IdentitiesAreExactAfterAPassExactlyWhen | tableinator/graph_counters.py:148-151 | and identities exactly what the stored releases assert, iff every track identity of a release the prefilter rejects is also asserted by one it keeps |
| CatalogRows.APassLeavesMemberships | tableinator/graph_counters.py:142-147 | with an artist stored, a pass leaves exactly the memberships the JSON of some stored artist says |
| CatalogRows.APassLeavesIdentities | tableinator/graph_counters.py:148-151 | with a release stored, it leaves exactly the identities said by stored releases with a non-empty list of release-level credits, their track credits included |
| CatalogGuarantees.AFailedLoadEmptiesNothing | tableinator/graph_counters.py:401-427 | after any history a pass with no artist stored keeps every membership, and one with no release stored every identity |
| CatalogGuarantees.CreditsAreHistoryExact | tableinator/graph_derivation.py:242-254 | company credits are those the release's last written payload that stated companies says, and no others |
| CatalogGuarantees.CreditsFromScratchExactlyWhenStated | tableinator/graph_derivation.py:242-246 | they equal the simple form iff the stored payload states its companies or no earlier one credits any |
| CatalogGuarantees.AnUnstatedPayloadKeepsOldCredits | tableinator/graph_derivation.py:242-246 | a payload that stops stating companies leaves the old credits in place |
| CatalogGuarantees.ForeignRowsNeverChange | tableinator/graph_writer.py:15-19 | no history touches a row of another source in the two shared relations |
| CatalogGuarantees.WriteMarksSeen | tableinator/batch_writer.py:186-218 | every committed write, unchanged and backfilled rows included, stamps its documents with its own time |
| CatalogGuarantees.AWriteLeavesRowsComplete | tableinator/batch_writer.py:159-223 | a committed write leaves each named row with the last delivered hash and content, an identity and, for releases, media, and changes no other row |
| CatalogRows.ADeliveredRowByColumn | tableinator/record_persistence.py:156-230 | every column of a delivered row on either path, by whether the stored hash is the delivered one |
| CatalogRows.UndeliveredRowsStay | tableinator/batch_writer.py:159-223 | a document no payload of a committed write names keeps its row |
| CatalogRows.AnUnresolvedDocumentWritesNothing | tableinator/batch_writer.py:132-142 | one document without a native identity, and the batch or single write leaves everything as it was |
| CatalogRows.ARewrittenDocumentHasItsRows | tableinator/graph_writer.py:219-236 | a document delivered under a new hash has, in each relation it owns, exactly the rows its JSON says, company credits included when it states its companies |
| CatalogRows.AWriteLeavesOtherRows | tableinator/graph_writer.py:225-230 | the rows of every other document, and the company credits of one that states none, stay as they are |
| CatalogRows.AWriteOnlyAddsSharedRows | tableinator/graph_writer.py:232-236 | a write adds the memberships and identities its changed documents say, and deletes none |
| CatalogRows.NewVertexIsFirstSpelling | tableinator/graph_writer.py:139-145 | a new vertex row takes its columns from the first row of its key the document derives |
| CatalogRows.VertexKeysByColumn | tableinator/graph_writer.py:139-145 | two rows of a vertex table share a key iff their first columns are equal |
| CatalogRows.FirstSpellingStays | tableinator/graph_writer.py:139-145 | a vertex row, once written, keeps every column through any history |
| CatalogRows.TablesHoldOneRowPerKey | tableinator/graph_writer.py:219-236 | after any history no two rows of a relation agree on its key columns |
| CatalogGuarantees.TouchedRowsSurvivePurges | tableinator/record_persistence.py:94-106 | a row any write touched since an extraction's start outlives that extraction's purges |
| CatalogGuarantees.BatchesStayRefinements | tableinator/batch_writer.py:159-218 | with one resolver, stored identities keep agreeing with it, so in every reachable state a batch is its records one at a time |
| CatalogGuarantees.ATrackIdentityIsDropped | tableinator/graph_counters.py:148-151 | an identity only rejected releases' tracks name is in the table before a pass and gone after it, while a stored release asserts it |
| CatalogGuarantees.AWrittenIdentityIsLost | tableinator/graph_counters.py:148-151 | from the empty database: one release written, one pass run, and an identity the stored release asserts is gone |
| CatalogGuarantees.RedeliveryChangesNoGraph | tableinator/record_persistence.py:237-242 | redelivering an unchanged document by either path rewrites no graph row |
| Endpoints.DerivedEdgesNameTheirVertices | tableinator/graph_derivation.py:257-310 | every derived edge's vertex, and every medium's family, is among the same document's vertex rows |
| Endpoints.NoEdgeWithoutItsVertex | tableinator/graph_writer.py:7-9 | after any history every edge this loader wrote finds the vertex rows the views join it to |
| Endpoints.EveryRowFindsItsVertices | tableinator/graph_writer.py:7-9 | the same by columns: tag, person, company or medium, and the medium's family |
| Reconcile.PageThrough | tableinator/graph_counters.py:434-448 | the keyset loop ends, reads every id above the empty string exactly once in ascending order whatever the page size, and collects exactly what they assert |
| Reconcile.ReconcileRelation | tableinator/graph_counters.py:392-469 | the pass leaves exactly the asserted rows, skips an empty source table, and reports the two set differences |
| ReconcileFacts.EmptySourceIsSkipped | tableinator/graph_counters.py:420-427 | a pass over an empty source table leaves the whole database alone |
| Reconcile.AfterIsTheRest | tableinator/graph_counters.py:337-347 | the ids above a page's last key are exactly the rest of the ascending list |
| ReconcileFacts.MembershipPrefilterIsExact | tableinator/graph_counters.py:142-147 | an artist the prefilter rejects derives no membership |
| ReconcileFacts.RejectedReleasesAssertTrackPairs | tableinator/graph_counters.py:148-151 | a release the prefilter rejects derives an identity iff one of its track credits names it |
| ReconcileFacts.MembershipsAreExact | tableinator/graph_counters.py:350-374 | after a pass over a non-empty table memberships are exactly the stored artists' |
| ReconcileFacts.IdentitiesAreExactExactlyWhen | tableinator/graph_counters.py:148-151 | after a pass identities are exact iff every track identity of a rejected release is also asserted by a release the pass reads |
| ReconcileFacts.ATrackOnlyIdentity | tableinator/graph_derivation.py:279-286 | a concrete release the prefilter rejects that derives an identity |
| ReconcileFacts.PassCountsAreTheDifference | tableinator/graph_counters.py:454-459 | inserted and deleted account exactly for the change in the relation's size |
| LockOrder.NoDeadlock | tableinator/graph_writer.py:27-32 | in every sound state of writers that keep the order, all are done or one can step |
| LockOrder.PrivateRowsNeverWait | tableinator/graph_writer.py:225-230 | a scoped delete, or an insert of an owned row, never waits, because its document's entity row is held |
| LockOrder.DisciplinedWritersFinish | tableinator/graph_writer.py:27-32 | any number of such writers in any interleaving are never stuck, and no run is longer than their locks and commits |
| LockOrder.OutOfOrderRowsCanDeadlock | tableinator/batch_writer.py:197-218 | two entity rows taken in one order can deadlock with a writer that takes them first in the other |
| BatchLocks.AnUnsortedBatchCanDeadlockWithABatch | tableinator/batch_writer.py:197-223 | a batch whose entity rows do not ascend can deadlock with another batch, one whose every row passes the hash gate |
| BatchLocks.BatchDiscipline | tableinator/graph_writer.py:139-155 | a batch's owned rows always lie behind their entity rows, and its whole lock order ascends iff its entity rows do |
| BatchLocks.BatchLocksWhatItWrites | tableinator/batch_writer.py:159-223 | a batch locks the entity row of every document it names, changed or not, and beside its deletes exactly the vertex and edge rows its changed documents derive |
| BatchLocks.BatchIsSafeExactlyWhenItsRowsAscend | tableinator/batch_writer.py:197-223 | on entity, vertex and edge rows a batch can always be finished beside any disciplined writers iff its entity rows come in ascending id, so always when every row passes the hash gate |
| Counters.FirstYearIsTheLeast | tests/integration/test_first_year_bodies.py:41-46 | the correlated subquery is the least valid year of one tag's releases, or nothing |
| Counters.YearsByDigits | tableinator/graph_counters.py:171-180 | a release has a year iff its trimmed text is digits only with a decimal value from one to the largest integer, and past that the cast overflows |
| Counters.GroupedIsCorrelated | tableinator/graph_counters.py:171-180 | over arbitrary tables, consistent or not, the two bodies agree iff some year out of range, if there is any, belongs to a tag with a vertex |
| TagCounters.FirstYearBodiesAgree | tableinator/graph_counters.py:171-180 | after any history, for genres and styles and whatever years the releases print, the one-pass body returns the rows of the per-tag body and aborts exactly when it does |
| Counters.ArtistDegreesHandshake | tableinator/graph_counters.py:224-236 | each artist's degree is one per release, master and identity row naming it and one per end of a membership or alias it is at; degrees sum to one per single-artist row and two per artist-to-artist row |
| Counters.ReleaseDegreesHandshake | tableinator/graph_counters.py:237-250 | each release's degree is the rows of the eight relations naming it, and degrees sum to all their rows |

## Left out

- The inline latch mode and switching between modes: it stamps and signals without jobs, so the durable invariant does not speak about it.
- RabbitMQ consumption, pausing, parking and recovery of consumers, channel errors and dead-letter plumbing: deliveries, redeliveries and restarts are steps of the model, their transport is not.
- The shared runtime (batch engine, write admission, failure classifier, alias resolution): not part of this repository; write outcomes are an oracle and native identity is a function of the document.
- Identifier aliases attached beside each write (`tableinator/identity.py`): idempotent inserts into tables nothing here reads.
- The vocabularies (medium labels, media canonicalisation, person-name stripping, name folding): arbitrary functions, fixed during one history.
- The schema's DDL is not part of this repository: relation keys and column defaults (a new job is pending at epoch 0 and due now, a new cursor is at generation 0) follow the statements and comments that rely on them, and hash columns are taken as never NULL.
- The cursor row is modelled as always present; inserting it is idempotent and precedes every read of it.
- The schema-owned functions that rebuild `artist_member_of` and `vertex_degree`, and the counters other than `first_year` and the two degrees: the published relations of a refresh are one opaque value in the protocol.
- `SKIP LOCKED` is a set of rows a scan may not pick; a lost heartbeat is modelled as the lease update only, and a worker may go on to any later step.
- The purge's fraction is a real quotient; floating-point rounding at the cap is not modelled. Update times are integers, so a timestamp's zone and parse are reduced to missing, malformed or a time.
- Text is a sequence of characters compared by code point: database collation, Unicode normalisation and whitespace beyond the ASCII set stripped from version keys are not modelled. Latch keys are taken as stored trimmed.
- BatchLocks.BatchIsSafeExactlyWhenItsRowsAscend: assumes the inserts a batch makes into the identity and alias tables (`tableinator/batch_writer.py:136-137`, `237`) never wait in a cycle; they come in payload order, two releases may share a barcode, and the tables belong to the shared runtime. Locks taken by purges, refresh passes and the other provider's loader are not modelled either.
- Telemetry, logging, spans, health payloads, stall gauges, the batch observer's counters and configuration: nothing the properties depend on. Of the schema probes only the latch probe's outcome is modelled, as a fact of each process; the durable schema's is part of whether a signal can be committed.
- Counters.GroupedIsCorrelated: years are compared after the cast and the evaluation order of the two year conditions is the written one.
- A terminal signal whose version is not a calendar day is rejected before anything is written (`tableinator/tableinator.py:1473-1485`), so the terminal-signal runs start from a day; the version parse is modelled beside them.
