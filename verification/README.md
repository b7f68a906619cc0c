# RouterView backend: model and proofs

RouterView is a dashboard for RouterOS routers. Its Rust backend keeps traffic history in SQLite,
authenticates browsers, accepts configuration updates and works out which WANs a router has. This
project models the parts of that backend whose correctness depends on arithmetic, on many
transactions following each other, or on handlers interleaving, and proves what those parts are for.

## What is modelled

**Traffic history.** Per router interface the store holds raw samples, rollup rows, gaps and one
counter checkpoint. `TrafficTables`, `Commits`, `RollupBatch`, `Retention` and `TrafficQuery` give
each transaction as a function on the tables with the code's own branches, limits, floor divisions
and saturating or checked 64-bit operations; the class `TrafficDb.TrafficDb` carries out the same
transactions step by step on its fields, and every method is proved to agree with its function, to
commit as a whole or to leave the state unchanged. The theorems are about those functions:
`QueryTheorems`, `QueryAnswers` and `QueryPoints` (which queries are answered, at what resolution,
and what each point holds), `RollupConservation`, `RollupTheorems`, `RollupExactness`, `RollupRows`,
`RollupReach`, `RollupCounts`, `RollupSafety`, `RollupGuarantees`, `RollupRefinement`,
`StoreQueries` and `RollupProgress` (what a rollup batch keeps, what it leaves of each sample, how
much it gets done, when it fails, what queries still see, and that repeating it ends),
`RetentionProgress` (that everything expired is deleted), `CommitAcceptance` and `CommitReports`
(which commits are accepted and what queries see of them), and `History` and `HistoryAcceptance`
(whole runs with retries and replays, and that nothing a poller observes is dropped). `Int64`,
`Outcomes`, `SortKeys`, `BTree`, `Counting`, `Slices` and `Contributions` are what these share:
integer ranges, error results, the stable sort, ordered keys, counting, and the share arithmetic.

**Imported history.** `LegacyImport` models the migration of the old point and minute tables, and
`Adoption` the transfer of imported history to the first identified router. `AdoptionTheorems`,
`AdoptionSound`, `AdoptionCheckpoints`, `AdoptionAccepts` and `AdoptionTimes` prove what the
transfer keeps and when it is refused, `ImportValues` what each imported row holds, and
`ImportedRuns` carries the theorems about runs over to stores that begin with imported or adopted
rows.

**Credentials, sessions, pairing.** `AuthStore` and the class `AuthDb.AuthDb` hold the transactions
on the administrator, setup-token, session and pairing tables. `AuthSystem` interleaves them: login
and admin pairing read the administrator record in one step and use it in a later one. `AuthReset`
proves that a reset cuts off the past, `AuthPairing` that a pairing code makes at most one session,
`AuthCredentials` that the administrator has the credentials last given, `AuthAcceptance` exactly
when each step takes effect, and `AuthGuarantees` what else holds over every run. `PairingLimiter`,
`PairingBackoff` and `PairingOverflow` model the limiter that paces pairing attempts.

**Configuration updates.** `ConfigUpdate` models one update (edits on a copy, validation, the
compare-and-swap transaction, and loading at start), `ConfigEffects` proves that an update does what
the request asks, `ConfigReload` that what is written reads back and what an update may do,
`ConfigRuns` interleaves handlers that copy, commit, publish or vanish, and `ConfigFailures` reaches
each way in which updates fall short from a start.

**WAN resolution and shutdown.** `WanResolution`, `WanTheorems` and `WanGateways` relate the sort,
dedupe, merge and re-sort pipeline to a short description of its result; `WanReachability` and
`WanDescription` put it in the words of the routing table. `WsTracker` models the tracker that
shutdown waits on, with the notification permit it relies on.

## Results worth knowing

- A rollup batch on a sound store fails only at integer limits, and exactly then
  (`RollupGuarantees.RollupStaysSound`).
- The comparison of each row with its predecessor finds every overlap
  (`RowStreams.AdjacentCheckIsComplete`), and neither the point limit nor the coverage check of a
  query can ever refuse one whose range does not saturate (`QueryTheorems.QueryAcceptsExactly`).
- Imported rows of an interface are disjoint when minute buckets lie on minute boundaries, and in
  general exactly when the open minutes of each WAN are a minute apart
  (`LegacyImport.ImportDisjointExactly`).
- Adoption does not look for overlaps: the adopted history is sound exactly when the rows of
  interfaces that it merges are clear of each other (`AdoptionSound.AdoptionStaysSoundExactly`).
- A restart restores the published configuration exactly when a password is stored or the
  environment offers none; otherwise a cleared password comes back from the environment
  (`ConfigReload.RestartAgreesExactly`, reached by `ConfigFailures.ClearedPasswordReturns`).
- If an update handler vanishes after its commit and before it publishes, the shared configuration
  stays one revision behind and no later update commits until a restart
  (`ConfigRuns.VanishedPublisherBlocks`, reached by `ConfigFailures.LostPublicationReached`).
- Two updates of the same content both commit exactly at the largest revision number, where the
  counter no longer moves (`ConfigRuns.SaturatedRevisionLosesUpdates`, reached by
  `ConfigFailures.SaturationReached`); memory and database agree in every run whose commits do not
  run past it (`ConfigRuns.RunsAgree`).
- A source refused under its own key waits as long as it was told. One refused through the overflow
  bucket may have to wait longer, as another attempt can be admitted there first
  (`PairingOverflow.OverflowWaitIsExtended`). And a success can leave its source worse off: its entry
  goes, and if the table is still full counting the bucket, its next attempt waits with the others
  (`PairingOverflow.SuccessThenRefused`; `PairingBackoff.SuccessForgets` says exactly when).
- A rollup batch turns into estimates exactly the settled samples that lie across a bucket boundary or
  the cutoff (`RollupExactness.RollupKeepsExactLedger`).

## Conventions

Integers are mathematical; `i64`, `u63`, `u64` and `u16` name the ranges the code uses, and every
saturating, checked or range-limited operation is written out. Dafny's `/` rounds like the code's
`div_euclid`. Wherever an amount is meant for several columns at once, `Metric` selects one: down
bytes, up bytes or covered time, each in total or only its exact part. Clocks, random identifiers,
hashes and the outcome of password checks are parameters.

## Model

| member | source | states |
|---|---|---|
| `Slices.SliceSucceeds` | backend/src/db/traffic_v4.rs:1495-1521 | On stored amounts no error branch of the proportional allocation is reachable; the slice is the difference of two running shares between 0 and the whole |
| `Slices.ShareOutpacedByTime` | backend/src/db/traffic_v4.rs:1439-1492 | Covered time cut out of a row never exceeds the length of the piece, so the clamp on a sliced duration never binds |
| `Slices.ProductFitsI128` | backend/src/db/traffic_v4.rs:1511-1520 | Products of stored amounts and offsets stay inside 128 bits |
| `Contributions.SegmentAddsPiece` | backend/src/db/traffic_v4.rs:1439-1492 | Adding a segment to a bucket adds exactly the piece of the row between its ends, whole rows staying exact and cut rows becoming estimated |
| `Contributions.SpreadConserves` | backend/src/db/traffic_v4.rs:1769-1800 | Spreading a valid row over buckets never fails, conserves bytes and covered time, and covers no bucket by more than its elapsed time |
| `Contributions.SpreadTouchesTwoBuckets` | backend/src/db/traffic_v4.rs:1769-1800 | A row no longer than a bucket changes only the buckets of its first and last millisecond |
| `RowStreams.SortOrders` | backend/src/db/traffic_v4.rs:1630-1659 | Each source is delivered in (end, start) order |
| `RowStreams.MergeOrders` | backend/src/db/traffic_v4.rs:1677-1712 | Merging two ordered streams by (end, start) gives an ordered stream |
| `RowStreams.MergeKeepsRows` | backend/src/db/traffic_v4.rs:1677-1712 | The merge delivers every row of both streams once |
| `RowStreams.AdjacentCheckIsComplete` | backend/src/db/traffic_v4.rs:1677-1712 | Comparing only with the previous end accepts an ordered list of valid rows exactly when all its rows are pairwise disjoint |
| `TrafficQuery.AccumulateRow` | backend/src/db/traffic_v4.rs:1769-1800 | The bucket loop of one row computes the totals and buckets of the recursive definition, or its error |
| `TrafficQuery.FoldStreams` | backend/src/db/traffic_v4.rs:1621-1715 | The loop that takes the smaller head of two streams folds their merge, with the same budget, validity and overlap errors |
| `TrafficQuery.CollectPoints` | backend/src/db/traffic_v4.rs:1333-1397 | The reported points are the buckets in order, each with its clipped interval |
| `TrafficQuery.FoldAccounts` | backend/src/db/traffic_v4.rs:1621-1715 | A row list is accepted exactly when its rows are valid and chained; then totals and buckets both hold the sum of the shares |
| `TrafficQuery.PointsMirrorBuckets` | backend/src/db/traffic_v4.rs:1333-1397 | The points add up to what the buckets hold |
| `QueryTheorems.QueryAcceptsExactly` | backend/src/db/traffic_v4.rs:1293-1331 | A query is answered exactly when the rows of its range are within budget, representable, valid and pairwise disjoint |
| `QueryAnswers.QueryAnsweredExactly` | backend/src/db/traffic_v4.rs:1529-1551 | Of all rows of both tables that overlap the range there are no more than the budget, each can be read, and no two overlap: exactly then a query is answered |
| `QueryAnswers.QueryRefusedExactly` | backend/src/db/traffic_v4.rs:1269-1298 | An invalid command is exactly a bad range, point limit or budget, or an interface not registered with the router |
| `QueryPoints.BucketSizeIsLeast` | backend/src/db/traffic_v4.rs:1299-1306 | The reported bucket size is the least one within the point limit that is no shorter than any row read |
| `QueryPoints.PointsHoldShares` | backend/src/db/traffic_v4.rs:1333-1362 | Each point lies on the grid of bucket sizes and holds exactly the shares and counts of the rows in its own interval; a bucket has a point exactly when some row overlaps it |
| `QueryAnswers.SamplesCountOnce` | backend/src/db/traffic_v4.rs:1529-1551 | A stored sample counts once in every interval it overlaps |
| `StoreQueries.GapsCounted` | backend/src/db/traffic_v4.rs:1315-1328 | The gap count is the number of overlapping gaps of the router or of the interface |
| `QueryTheorems.ReportAccountsForRows` | backend/src/db/traffic_v4.rs:1333-1397 | Totals equal the shares of the rows; points add up to totals and coverage; at most max_points points; coverage per point and overall never exceeds its interval |
| `QueryTheorems.QueriesAddUp` | backend/src/db/traffic_v4.rs:1293-1331 | When [a,c) is answered so are [a,b) and [b,c); bytes and coverage add up exactly and exact amounts of the whole are at least those of the parts |
| `QueryTheorems.RowTouchesTwoBuckets` | backend/src/db/traffic_v4.rs:1529-1551 | The planned bucket size lets every row of the range touch at most two buckets |
| `QueryTheorems.BucketCountBound` | backend/src/db/traffic_v4.rs:1299-1331 | A window of n bucket lengths fills at most n buckets, so the point-limit error is unreachable |
| `QueryTheorems.TotalsFitI128` | backend/src/db/traffic_v4.rs:1439-1492 | Totals over the admitted number of rows stay inside 128 bits |
| `Commits.RetryIsIdempotent` | backend/src/db/traffic_v4.rs:383-527 | Repeating a commit that returned true returns false and changes nothing |
| `Commits.OldObservationAddsNothing` | backend/src/db/traffic_v4.rs:383-527 | An observation no later than the checkpoint never adds a row, whatever became of the first one |
| `CommitAcceptance.CommitAcceptsExactly` | backend/src/db/traffic_v4.rs:383-527 | A sample is stored exactly when it is well formed, its interface is registered, its key is free and the checkpoint is earlier; then row and checkpoint carry what was committed |
| `CommitAcceptance.RetryAnsweredExactly` | backend/src/db/traffic_v4.rs:430-471 | False is reported exactly for the very same stored sample with an agreeing checkpoint; a stored row of that key with any differing field is refused |
| `CommitAcceptance.GapAcceptsExactly` | backend/src/db/traffic_v4.rs:573-668 | A gap is stored exactly when it is well formed, its interface is registered, its key is free and the checkpoint is earlier |
| `CommitAcceptance.GapRetryAnsweredExactly` | backend/src/db/traffic_v4.rs:573-668 | False is reported exactly for the same stored gap with the same details and an agreeing checkpoint |
| `CommitAcceptance.FirstCheckpointExactly` | backend/src/db/traffic_v4.rs:546-571 | A checkpoint is stored exactly when its counters are digits and its registered interface has none |
| `TrafficDb.TrafficDb.CommitSampleAndCheckpoint` | backend/src/db/traffic_v4.rs:383-527 | The whole new state, or the error with nothing changed, of a sample commit |
| `TrafficDb.TrafficDb.CommitGapAndCheckpoint` | backend/src/db/traffic_v4.rs:573-668 | The whole new state, or the error with nothing changed, of a gap commit |
| `TrafficDb.TrafficDb.InitializeCheckpointIfAbsent` | backend/src/db/traffic_v4.rs:546-571 | The first checkpoint is stored once and never replaced |
| `TrafficDb.TrafficDb.RollupExactSamplesBatch` | backend/src/db/traffic_v4.rs:682-961 | The batch transaction, loop by loop, reaches the state of the specification or leaves everything unchanged |
| `TrafficDb.ConsumeSample` | backend/src/db/traffic_v4.rs:733-793 | The segment loop of one sample computes the recursive consumption within the segment budget |
| `TrafficDb.PlanOneSample` | backend/src/db/traffic_v4.rs:732-819 | One sample is fully consumed, or leaves the remainder row whose bytes complement what was consumed |
| `TrafficDb.TrafficDb.PlanSamples` | backend/src/db/traffic_v4.rs:728-819 | Samples are planned in order until the segment budget is spent |
| `TrafficDb.TrafficDb.UpsertBuckets` | backend/src/db/traffic_v4.rs:821-918 | Buckets are inserted or merged in order, stopping at the first refused one |
| `TrafficDb.TrafficDb.SettleSamples` | backend/src/db/traffic_v4.rs:920-958 | Remainder rows are updated and consumed rows deleted, each exactly once |
| `TrafficDb.ApplyFails` | backend/src/db/traffic_v4.rs:920-943 | A failing remainder update fails the whole batch |
| `TrafficDb.DeleteFails` | backend/src/db/traffic_v4.rs:944-958 | A failing delete fails the whole batch |
| `RollupTheorems.BatchIsOrdered` | backend/src/db/traffic_v4.rs:693-727 | A batch holds distinct samples from before the cutoff ordered by start |
| `RollupTheorems.BatchIsEarliest` | backend/src/db/traffic_v4.rs:693-727 | No sample left out of the batch starts before one in it |
| `RollupReach.BatchIsFull` | backend/src/db/traffic_v4.rs:693-727 | A batch takes as many due samples as its size allows |
| `RollupReach.ShortSamplesAreSettled` | backend/src/db/traffic_v4.rs:684-763 | When no due sample is longer than a bucket, a batch settles the earliest due samples, as many as its size allows, up to their end or the cutoff |
| `RollupReach.RollupReportsRemoved` | backend/src/db/traffic_v4.rs:670-673 | The number a batch reports is the number of rows the sample table lost |
| `RollupCounts.RollupCountsPieces` | backend/src/db/traffic_v4.rs:684-793 | The rollup rows count one for every bucket a settled sample went into; a batch moves at most twice its size, and fewer only when its whole batch is consumed to the end or the cutoff |
| `RollupTheorems.RollupConserves` | backend/src/db/traffic_v4.rs:682-961 | For every filter of rows that is not cut, a successful batch keeps each total and never increases an exact amount |
| `RollupTheorems.RollupKeepsLedger` | backend/src/db/traffic_v4.rs:682-961 | For every interface a batch keeps bytes and time and only moves exact to estimated |
| `RollupExactness.RollupKeepsExactLedger` | backend/src/db/traffic_v4.rs:742-793 | The exact ledger of every interface loses exactly what settled samples across a bucket boundary or the cutoff held of it |
| `RollupExactness.RollupKeepsExactRange` | backend/src/db/traffic_v4.rs:742-793 | The same for what lies inside a range that cuts no row |
| `RollupRows.RollupLeavesRests` | backend/src/db/traffic_v4.rs:799-943 | A changed sample is what is left of an old one from a bucket boundary or the cutoff on, its bytes the complement of the floor, its rates recomputed, no longer exact |
| `RollupGuarantees.RollupStaysSound` | backend/src/db/traffic_v4.rs:728-918 | On a sound store any batch with any cutoff fails exactly at integer limits, and success leaves a sound store |
| `RollupGuarantees.RollupOrigins` | backend/src/db/traffic_v4.rs:821-958 | Every sample kept and every rollup row written comes from an old sample of the same interface |
| `RollupRefinement.RollupRefinesRange` | backend/src/db/traffic_v4.rs:733-819 | For every range that cuts no row before or after, totals inside it are unchanged and exact amounts do not grow |
| `StoreQueries.SoundStoreAnswers` | backend/src/db/traffic_v4.rs:1734-1767 | A sound store answers every valid query within the row budget, with no verification error |
| `StoreQueries.RollupRefinesQueries` | backend/src/db/traffic_v4.rs:682-961 | A query over a range that cuts no row reports the same totals before and after a batch, exact amounts at most as large |
| `RollupExactness.QueriesKeepExact` | backend/src/db/traffic_v4.rs:682-961 | The exact amounts such a query reports fall by exactly what settled samples that were cut held in the range |
| `RollupProgress.RollupShrinksBacklog` | backend/src/db/traffic_v4.rs:670-708 | Every successful batch that sees a sample before the cutoff strictly shrinks the time held by such samples, even when it reports 0 |
| `RollupProgress.RollupShrinksUnconsumed` | backend/src/db/traffic_v4.rs:732-819 | Every such batch also shrinks the unconsumed time before the cutoff, by at least one millisecond for each sample it settles |
| `RollupProgress.RepeatedBatchesFinish` | backend/src/db/traffic_v4.rs:674-680 | Repeated batches reach a store with no sample starting before the cutoff, or an integer limit |
| `Retention.DoomedAreExpired` | backend/src/db/traffic_v4.rs:970-999 | Only rows that end by the boundary are deleted |
| `Retention.ChosenAreOldest` | backend/src/db/traffic_v4.rs:970-999 | An expired row left for later ends no earlier than any row that was deleted |
| `RetentionProgress.PruneDeletesExactly` | backend/src/db/traffic_v4.rs:970-999 | Each table loses exactly as many expired rows as there are, at most a batch, and the reported number is their sum |
| `RetentionProgress.RepeatedPruneFinishes` | backend/src/db/traffic_v4.rs:970-999 | Repeated batches reach tables without a row that ends by the boundary, and keep every later row |
| `Retention.PruneIsInvisible` | backend/src/db/traffic_v4.rs:970-999 | Every query starting at or after the boundary gets the same answer or the same error |
| `History.PruneStaysInvisible` | backend/src/db/traffic_v4.rs:970-999 | The same at every state any run reaches, as ids stay unique and below the next id |
| `Retention.PruneKeepsLedger` | backend/src/db/traffic_v4.rs:970-999 | What pruning removes is exactly what the tables lose |
| `Retention.PruneStaysSound` | backend/src/db/traffic_v4.rs:970-999 | Pruning keeps a store sound |
| `TrafficDb.TrafficDb.PruneExactHistoryBatch` | backend/src/db/traffic_v4.rs:970-999 | The deletions of samples, rollups and gaps, at most a batch of each, oldest first, and their count |
| `TrafficDb.TrafficDb.QueryTrafficV4` | backend/src/db/traffic_v4.rs:1110-1112 | The query on the stored rows, with the source-row limit of the store |
| `Commits.GapRetryIsIdempotent` | backend/src/db/traffic_v4.rs:573-668 | Repeating a gap commit that returned true returns false and changes nothing |
| `CommitReports.CommitIsReported` | backend/src/db/traffic_v4.rs:383-527 | A committed sample adds exactly its share of the range to every query on its interface, and to no other |
| `CommitReports.GapIsReported` | backend/src/db/traffic_v4.rs:573-668 | A committed gap is counted once by every query it overlaps on its interface and changes nothing else |
| `History.LedgerBalances` | backend/src/db/traffic_v4.rs:383-999 | Over every run each interface keeps bytes in samples, rollups and pruned rows equal to the commits that returned true |
| `History.RunsOrder` | backend/src/db/traffic_v4.rs:383-571 | Checkpoint times only grow and accepted ends strictly increase per interface |
| `History.ReplayAddsNothing` | backend/src/db/traffic_v4.rs:383-527 | A replay adds nothing after its row was rolled up, shrunk or pruned |
| `HistoryAcceptance.FedRunsRecordAll` | backend/src/db/traffic_v4.rs:383-527 | Over every run with gaps, rollups and pruning in between, samples that continue their interface are all recorded, in order |
| `HistoryAcceptance.PollingIsRecorded` | backend/src/db/traffic_v4.rs:383-527 | Well-formed observations that follow one another on each interface are all recorded |
| `HistoryAcceptance.RunsKeepKeys` | backend/src/db/traffic_v4.rs:383-999 | Keys of samples and gaps stay unique at every state a run reaches, so retries are answered exactly |
| `History.RunsStaySound` | backend/src/db/traffic_v4.rs:383-999 | Every run whose accepted samples continue their interface keeps the store sound, through retries, replays, gaps, rollups and pruning |
| `History.ReplaysAreFree` | backend/src/db/traffic_v4.rs:383-527 | An observation no later than the checkpoint is a permitted step of such a run at any point, and changes nothing |
| `History.RetriesAreFree` | backend/src/db/traffic_v4.rs:383-527 | Repeating an accepted sample right after its commit keeps such a run one |
| `History.RunsStayQueryable` | backend/src/db/traffic_v4.rs:1734-1767 | After every such run all valid queries within the row budget are answered |
| `ImportedRuns.ImportedStoreStaysQueryable` | backend/src/db/schema.rs:500-564 | The same for every run that begins with imported history of aligned minutes |
| `ImportedRuns.AdoptedStoreStaysQueryable` | backend/src/db/traffic_v4.rs:1939-2045 | The same for every run that goes on after a store in use adopted imported history whose merged rows are clear and behind the checkpoint they meet |
| `Adoption.AdoptLegacy` | backend/src/db/traffic_v4.rs:1939-2045 | The adoption loop over imported routers computes the specified tables or fails as a whole |
| `AdoptionTheorems.AdoptionMovesEverything` | backend/src/db/traffic_v4.rs:1939-2045 | Every imported sample, rollup and gap moves to the target unchanged otherwise, nothing else moves, the imported routers are gone, and interfaces still belong to their routers |
| `AdoptionTheorems.AdoptionConservesBytes` | backend/src/db/traffic_v4.rs:1939-2045 | The target then holds exactly what it and the imported routers held |
| `AdoptionAccepts.AdoptionSucceedsExactly` | backend/src/db/traffic_v4.rs:1939-2045 | Adoption succeeds exactly when the rows it merges differ in what is unique per interface |
| `AdoptionTimes.AdoptionMergesRouters` | backend/src/db/traffic_v4.rs:2023-2041 | Exactly the routers without an identity go; the target counts as seen from the earliest of them on and until now |
| `AdoptionTimes.InterfaceAdoptedExactly` | backend/src/db/traffic_v4.rs:1971-2007 | An interface whose key the target has gives way to the target's own; any other moves over and counts as seen until now |
| `AdoptionSound.AdoptionStaysSoundExactly` | backend/src/db/traffic_v4.rs:1939-2045 | The adopted history is sound exactly when the rows of interfaces that were merged are clear of each other |
| `AdoptionSound.AdoptionWithoutMergesStaysSound` | backend/src/db/traffic_v4.rs:1939-2045 | When no two interfaces of the routers involved share a key, adoption always leaves a sound history |
| `AdoptionCheckpoints.AdoptedRowsBehind` | backend/src/db/traffic_v4.rs:1939-2045 | Adopting history without checkpoints keeps every row behind the checkpoint of its interface if merged rows end by the checkpoint they meet |
| `LegacyImport.ImportSucceeds` | backend/src/db/schema.rs:473-592 | The import keeps one sample per point and one rollup per minute that no imported sample covers |
| `ImportValues.ImportHoldsAll` | backend/src/db/schema.rs:500-564 | Each point becomes the sample of the time since the one before it with its rounded bytes, each minute that no such sample overlaps a rollup of a minute of estimated bytes, each WAN an interface of its own |
| `LegacyImport.AlignedImportIsSound` | backend/src/db/schema.rs:500-564 | With minute buckets on minute boundaries all imported rows are valid and pairwise disjoint, and rollups and samples share no minute |
| `LegacyImport.ImportDisjointExactly` | backend/src/db/schema.rs:500-564 | Imported rows are pairwise disjoint exactly when the open minutes of each WAN are a minute apart |
| `AuthDb.AuthDb.ReplaceAdminPassword` | backend/src/db/mod.rs:519-544 | The whole new state of a reset: new version, every session revoked, every pairing code used up |
| `AuthDb.AuthDb.StoreSetupTokenIfNoAdmin` | backend/src/db/mod.rs:564-587 | A token is stored only while no administrator exists |
| `AuthDb.AuthDb.InvalidateSetupTokenIfMatches` | backend/src/db/mod.rs:636-650 | Only the matching unused token is invalidated |
| `AuthDb.AuthDb.ConsumeSetupAndCreateAdminAndSession` | backend/src/db/mod.rs:652-690 | Administrator and session appear together, or nothing changes |
| `AuthDb.AuthDb.InsertStandardSessionIfAdminVersion` | backend/src/db/mod.rs:702-731 | A session is inserted only for the version that was checked |
| `AuthDb.AuthDb.TouchSessionIfActiveThrottled` | backend/src/db/mod.rs:769-803 | What an accepted or refused touch leaves |
| `AuthDb.AuthDb.RevokeSession` | backend/src/db/mod.rs:836-846 | An unrevoked session is revoked once |
| `AuthDb.AuthDb.InsertPairingIfAuthorized` | backend/src/db/mod.rs:873-936 | A code is stored only for an active creator and the checked version |
| `AuthDb.AuthDb.ConsumePairingAndInsertSession` | backend/src/db/mod.rs:965-1049 | Code use and session insertion happen together or not at all |
| `AuthCredentials.AdminHasLastCredentials` | backend/src/db/mod.rs:507-544 | Over every run the administrator has the name and hash the last successful setup, creation or reset was given, and a version one above the number of resets |
| `AuthCredentials.ResetLasts` | backend/src/db/mod.rs:519-544 | After a reset, until the next one, the administrator has exactly the new name and hash, one version later |
| `AuthAcceptance.LoginExactly` | backend/src/db/mod.rs:702-731 | A login takes effect exactly when name and version are still those read and id and token are free; then the session is that of a browser |
| `AuthAcceptance.UndisturbedLoginSucceeds` | backend/src/auth.rs:497-563 | An undisturbed login succeeds and its session is active for twelve hours |
| `AuthAcceptance.OidcLoginExactly` | backend/src/db/mod.rs:733-767 | An OIDC login takes effect exactly when an administrator exists and id and token are free |
| `AuthAcceptance.SetupExactly` | backend/src/db/mod.rs:652-690 | Setup takes effect exactly with the unused, unexpired token while there is no administrator, and changes token, administrator and session together |
| `AuthAcceptance.AdminCodeExactly` | backend/src/db/mod.rs:873-936 | An administrator's code is created exactly for a live administrator session under the version that was read |
| `AuthAcceptance.ViewerCodeExactly` | backend/src/db/mod.rs:873-936 | A viewer's code is created exactly for a live administrator session; it lasts ten minutes |
| `AuthAcceptance.PairedExactly` | backend/src/db/mod.rs:965-1049 | A code is used exactly while it is unused, unexpired and its creator a live administrator; the session has the code's role for 180 or 30 days |
| `AuthAcceptance.TouchedExactly` | backend/src/db/mod.rs:769-834 | A touch answers whether the caller is live and extends its session exactly after the interval |
| `AuthAcceptance.RevokedExactly` | backend/src/db/mod.rs:836-846 | Revoking ends the named session for good and touches nothing else |
| `AuthAcceptance.ResetEndsAll` | backend/src/db/mod.rs:519-544 | After a reset no session is active and no code can be used |
| `AuthAcceptance.PoliciesRevokedExactly` | backend/src/db/mod.rs:848-871 | A change of the OIDC policy ends exactly the sessions admitted under another one |
| `AuthReset.ResetCutsOffThePast` | backend/src/auth.rs:522-563 | In every interleaving unrevoked password sessions carry the current name and version, unused admin pairings the current version, and no unrevoked session predates the last reset |
| `AuthReset.RunsFromInitialStayCurrent` | backend/src/auth.rs:522-563 | The same for every run from the empty database |
| `AuthReset.StaleLoginIsRefused` | backend/src/auth.rs:497-563 | A login whose record was read before a reset changes nothing after it, whatever others do meanwhile, new logins included |
| `AuthReset.StalePairingIsRefused` | backend/src/auth.rs:664-730 | The same for an admin pairing whose record was read before the reset |
| `AuthGuarantees.SetupSucceedsOnce` | backend/src/db/mod.rs:652-690 | Over every run at most one setup call succeeds |
| `AuthGuarantees.SetupNeedsOutstandingToken` | backend/src/db/mod.rs:589-690 | Setup succeeds only with the outstanding, unexpired token while no administrator exists |
| `AuthGuarantees.NoSetupOnceAdminExists` | backend/src/db/mod.rs:564-587 | No setup call ever succeeds once an administrator exists |
| `AuthPairing.PairingsUsedOnce` | backend/src/db/mod.rs:965-1049 | Over every run each code makes at most one session, every pairing session comes from one use of a code and has its role, and no code is used after its creator expired or was revoked |
| `AuthPairing.UsesFromInitial` | backend/src/db/mod.rs:965-1049 | The same for every run from the empty database |
| `AuthGuarantees.ExpiryIsFinal` | backend/src/db/mod.rs:1087-1109 | A session once revoked or expired is never active again in any run |
| `AuthGuarantees.ThrottleIsTight` | backend/src/db/mod.rs:769-803 | After an accepted HTTP touch the idle expiry lies less than 300 seconds below that of an unthrottled touch |
| `AuthGuarantees.NoSessionOutlivesItsKind` | backend/src/auth.rs:1170-1209 | However often it was touched, no session is active beyond the lifetime of its kind and role |
| `PairingLimiter.RetryAfterSeconds` | backend/src/auth.rs:319-322 | The advertised wait is the remaining time rounded up to whole seconds |
| `PairingLimiter.FailureLimiter.BeginPairingAttempt` | backend/src/auth.rs:208-249 | The table after an attempt, and whether it was admitted and under which key |
| `PairingLimiter.FailureLimiter.BeginFailureAttempt` | backend/src/auth.rs:273-295 | Expiry, refusal or one more recorded failure under a key |
| `PairingLimiter.FailureLimiter.RecordFailure` | backend/src/auth.rs:297-317 | The failure count saturates at 7 and sets the exponential wait |
| `PairingLimiter.FailureLimiter.ClearIfLatest` | backend/src/auth.rs:193-204 | A success clears an entry only if no later attempt was recorded |
| `PairingBackoff.AdmissionsArePaced` | backend/src/auth.rs:208-317 | Any k+1 consecutive admissions under one source key span at least 60k - 297 seconds, expiry included |
| `PairingBackoff.PacingIsReached` | backend/src/auth.rs:273-317 | Attempts made as early as allowed are all admitted and reach that bound exactly |
| `PairingBackoff.CapacityHolds` | backend/src/auth.rs:208-249 | At most 1024 sources and one overflow bucket are tracked over every run |
| `PairingBackoff.OtherSourcesUnharmed` | backend/src/auth.rs:208-254 | Another source never changes an entry and removes it only once expired |
| `PairingBackoff.RetryAfterIsHonest` | backend/src/auth.rs:208-322 | A tracked source that is refused is refused until less than a second before the advertised wait ends and admitted after it, whatever others do |
| `PairingBackoff.RefusedExactly` | backend/src/auth.rs:273-295 | A tracked source is refused exactly while its wait lasts and it was seen within 15 minutes |
| `PairingBackoff.WaitsGrow` | backend/src/auth.rs:297-317 | The waits are 1, 2, 4, 8, 16, 32 and 60 seconds, and start over after 15 minutes |
| `PairingBackoff.SuccessForgets` | backend/src/auth.rs:193-249 | A success of the latest attempt forgets its failures; the next attempt is admitted exactly unless the table is full without it and the overflow bucket is waiting |
| `PairingBackoff.StaleSuccessForgetsNothing` | backend/src/auth.rs:193-204 | A success that is not of the latest attempt changes nothing |
| `PairingOverflow.OverflowRefusalLasts` | backend/src/auth.rs:208-249 | A source refused through the overflow bucket is refused again before its wait ends exactly as long as the table is full |
| `PairingOverflow.OverflowWaitEnds` | backend/src/auth.rs:208-322 | From the end of that wait on it is admitted, unless the bucket admitted another attempt meanwhile |
| `PairingOverflow.OverflowWaitIsExtended` | backend/src/auth.rs:208-322 | Reached from the empty table: another attempt comes first, and the source is refused again after the wait it was told |
| `PairingOverflow.SuccessThenRefused` | backend/src/auth.rs:193-249 | Reached from the empty table: a source succeeds and its next attempt is refused through the overflow bucket |
| `TextForms.NumberRoundTrip` | backend/src/config_store.rs:52-134 | A number written as text parses back to itself |
| `TextForms.TrimExactly` | backend/src/api/system.rs:183-200 | Trimming takes exactly the white space around a text |
| `ConfigUpdate.PrepareUpdate` | backend/src/api/system.rs:165-331 | The handler's edits, password decision, validation and rows to write, or its first error |
| `ConfigUpdate.AppState.SaveConfigTransaction` | backend/src/db/mod.rs:368-430 | Compare-and-swap on the revision: all rows, the secret and the next revision, or nothing |
| `ConfigUpdate.AppState.CommitUpdate` | backend/src/api/system.rs:332-346 | An update is committed exactly when its plan is sound and its copy is at the database's revision |
| `ConfigEffects.UpdateDoesAsAsked` | backend/src/api/system.rs:165-331 | An update is accepted exactly when revision, flags, password decision and limits allow it, and then every field is the requested one or as before |
| `ConfigEffects.SecretAsAsked` | backend/src/db/mod.rs:368-430 | The stored password is kept, replaced or deleted as the request says |
| `ConfigEffects.CommitLeavesRest` | backend/src/api/system.rs:289-331 | A commit stores the wizard flag it names and leaves every key that updates do not write |
| `ConfigEffects.LoadChecksLimits` | backend/src/config_store.rs:141-286 | Loading refuses exactly a configuration outside the limits and stores only a missing password |
| `ConfigEffects.LegacyNamesAreRead` | backend/src/config_store.rs:52-90 | The earlier names of the four router fields are read where the new ones are missing |
| `ConfigEffects.EmptyTableLoadsEnvironment` | backend/src/config_store.rs:52-134 | An empty table loads the settings of the environment |
| `ConfigReload.CommitRestores` | backend/src/api/system.rs:238-346 | What a committed update writes reads back as the configuration it publishes |
| `ConfigReload.LoadRestores` | backend/src/config_store.rs:216-286 | A successful start leaves a database that restores what it loaded |
| `ConfigReload.RestartAgreesExactly` | backend/src/config_store.rs:240-286 | A restart brings back the committed configuration exactly when a password is stored or the environment has none |
| `ConfigReload.PasswordNeverMoves` | backend/src/api/system.rs:231-282 | A stored password is never carried over to another router target |
| `ConfigReload.UpdateIsIdempotent` | backend/src/api/system.rs:165-346 | Sending an accepted update again on its new revision is accepted and changes nothing more |
| `ConfigReload.EmptyUpdateKeepsAll` | backend/src/api/system.rs:165-331 | A request that names no field leaves every field as it is |
| `ConfigRuns.RunsAgree` | backend/src/api/system.rs:165-347 | In every interleaving memory and database agree at the end exactly when the commits did not run past the largest revision: each revision is one above its base and an update of it, and memory is the newest content or one behind |
| `ConfigRuns.StartIsConsistent` | backend/src/config_store.rs:216-286 | A successful start establishes the agreement |
| `ConfigRuns.VanishedPublisherBlocks` | backend/src/api/system.rs:343-347 | A handler lost between commit and publication blocks every later update |
| `ConfigRuns.LoneUpdateCommits` | backend/src/api/system.rs:169-343 | A lone sound update commits exactly when memory is current |
| `ConfigRuns.SaturatedRevisionLosesUpdates` | backend/src/db/mod.rs:418-424 | Two sound updates of the same current content both commit exactly at the largest revision; below it only the first does |
| `ConfigFailures.ClearedPasswordReturns` | backend/src/config_store.rs:216-286 | From every start with a password in the environment, clearing it, publishing and restarting brings it back |
| `ConfigFailures.LostPublicationReached` | backend/src/api/system.rs:332-347 | From every start below the largest revision, copy, commit and vanish reach the state no update leaves |
| `ConfigFailures.SaturationReached` | backend/src/db/mod.rs:368-430 | From every start at the largest revision two copies of the same content both commit |
| `ConfigFailures.StartExists` | backend/src/config_store.rs:216-286 | At every revision there is a database and an environment with a password that load |
| `SortKeys.SortSorts` | backend/src/poller/transform.rs:322-322 | The stable sort orders by (rank, distance, text) |
| `SortKeys.FirstLeastIsLeast` | backend/src/poller/transform.rs:456-463 | The chosen index is the first least among the allowed ones |
| `WanResolution.ResolveAllWans` | backend/src/poller/transform.rs:300-480 | The loops over both routing tables compute the specified list |
| `WanTheorems.WansExistExactly` | backend/src/poller/transform.rs:317-447 | A name has a WAN exactly when some enabled default route of either family leaves through it |
| `WanTheorems.ResolvedAreApart` | backend/src/poller/transform.rs:331-352 | No interface appears twice, bare gateways differ, at most one WAN is primary |
| `WanTheorems.NamedWanIsBest` | backend/src/poller/transform.rs:389-415 | A named WAN carries the least (state rank, distance) over both families; it is online exactly when its interface runs and some such route is reachable |
| `WanTheorems.AddV6KeepsSound` | backend/src/poller/transform.rs:389-424 | Adding an IPv6 route keeps the description; its key is never already taken without a WAN of that name |
| `WanTheorems.PrimaryExactly` | backend/src/poller/transform.rs:456-480 | A primary exists exactly when some running interface has an active reachable default route; it is unique, first, and least by (distance, name) |
| `WanTheorems.DisplayOrder` | backend/src/poller/transform.rs:466-478 | The list runs from the primary over online to offline WANs by distance and name |
| `WanReachability.ReachableExactly` | backend/src/poller/transform.rs:500-505 | A status says reachable exactly when one of its words, letters without a letter on either side, does |
| `WanReachability.UnreachableIsNot` | backend/src/poller/transform.rs:500-505 | A status of the one word "unreachable" does not |
| `WanDescription.WansAsDescribed` | backend/src/poller/transform.rs:317-447 | A name has a WAN exactly when an enabled default route leaves through it, by its interface or by the interface its gateway names |
| `WanDescription.NamedWanAsDescribed` | backend/src/poller/transform.rs:356-415 | A named WAN shows the state of one of its routes, none of them better, and is online exactly when its interface runs and one is reported reachable |
| `WanDescription.PrimaryAsDescribed` | backend/src/poller/transform.rs:456-464 | The first WAN is marked primary exactly when some active route reported reachable leaves through a running interface; none of these is nearer |
| `WanDescription.DisplayAsDescribed` | backend/src/poller/transform.rs:466-478 | The list runs from the primary over online to offline WANs by distance and then by name |
| `WanGateways.NamedWanGateway` | backend/src/poller/transform.rs:331-386 | A named WAN shows the gateway of its least IPv4 route, and a dash exactly when it has none |
| `WanGateways.BareGatewaysListed` | backend/src/poller/transform.rs:331-352 | Every bare IPv4 gateway of an enabled default route has a WAN of its own |
| `WsTracker.NoLostWakeup` | backend/src/ws/tracker.rs:28-80 | In every interleaving the count equals the live guards and a waiter sleeps only while a session is active |
| `WsTracker.DrainedForever` | backend/src/ws/tracker.rs:28-45 | Once closed and empty, no session is ever active again |
| `WsTracker.StopCloses` | backend/src/ws/tracker.rs:28-45 | After closing no registration ever succeeds; until then each adds a session |
| `WsTracker.ReturnMeansDrained` | backend/src/ws/tracker.rs:39-62 | A wait that returns after closing leaves no session, then or ever |
| `WsTracker.DrainedWaitReturns` | backend/src/ws/tracker.rs:54-62 | After the last session two turns of the waiter are enough for it to return |
| `WsTracker.WsSessionTracker.Register` | backend/src/ws/tracker.rs:28-37 | Registration counts and hands out a guard only while accepting |
| `WsTracker.WsSessionTracker.Release` | backend/src/ws/tracker.rs:70-80 | Dropping a guard lowers the count by one, never below zero, and notifies at zero |
| `WsTracker.WsSessionTracker.Stop` | backend/src/ws/tracker.rs:39-45 | Closing notifies when nothing is active |
| `WsTracker.WsSessionTracker.Wait` | backend/src/ws/tracker.rs:54-62 | One turn of the wait loop |

## Left out

- SQLite: indexes, query plans, WAL, progress handlers and read-only connections; a transaction is atomic and a read is one snapshot.
- Cancellation and deadlines of queries, and the lookup of routers and interfaces that precedes one.
- Floating-point display values: rates, averages and completeness. Stored rates are carried as reals; `created_at` columns are not.
- QueryPoints.BucketSizeIsLeast: the same ranges as for QueryTheorems.QueryAcceptsExactly are outside its premise.
- QueryTheorems.QueryAcceptsExactly: ranges so long that `to - from` saturates at the largest 64-bit integer are outside its premise, as the bucket arithmetic then saturates too.
- When the row budget is exceeded and some row is also too long to represent, SQL leaves open which error comes first; the model reports the budget.
- A row longer than the 64-bit range makes SQLite compute a floating-point length; the model gives a storage error. An unchecked multiplication for a bucket start outside the range is an arithmetic error here.
- TrafficQuery.AccumulateRow: updates the entries of a map value; the code updates accumulators in place.
- History.RunsStaySound: assumes that an accepted sample starts where nothing of its interface lies beyond, and that the first checkpoint of an interface is not behind rows it already has, as with the consecutive observations of the poller; the poller itself is not part of this model.
- LegacyImport.ImportSucceeds: times within a minute of the ends of the 64-bit range are excluded.
- Credential versions are unbounded; tokens and hashes are opaque strings; whether a password matches is left open.
- AuthGuarantees.ExpiryIsFinal: assumes a clock that never goes back, as do the other statements about time, AuthPairing.PairingsUsedOnce among them.
- OIDC discovery and token checks; an OIDC login is a step that inserts a session.
- The login, setup and admin-pairing limiters share the helpers modelled here; their eviction of the oldest entry at capacity is not modelled.
- PairingBackoff.AdmissionsArePaced: speaks about source keys; the overflow bucket is reset when a place becomes free.
- ImportedRuns.AdoptedStoreStaysQueryable: the imported routers have no checkpoints, as after an import.
- Instants are unbounded nanosecond counts.
- ConfigUpdate.PrepareUpdate: router types (there is one), the management network list and the response body are left out, and encrypting the password always succeeds.
- ConfigReload.LoadRestores: databases that still hold a plaintext router password are not modelled.
- WanResolution.ResolveAllWans: addresses and the IPv6 gateway shown for a WAN are left out; whether a gateway text is an IP address is part of the route.
- WanTheorems.NamedWanIsBest: WANs without an interface name are excluded, as an IPv6 route without one merges into the first such WAN whatever its gateway.
- WsTracker.NoLostWakeup: one waiter, as in the program; the count is unbounded.
- Backup, restore, key rotation, the connection limiter, probe targets, command line and front end.
