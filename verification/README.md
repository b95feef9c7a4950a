# Verified model of the steam delivery data pipeline

Synthetic steam deliveries are generated half-hour by half-hour, validated as a bundle, loaded into
immutable Iceberg tables, declared as covered, turned into a dimensional mart, and published as
versions that a product API reads. This project models the parts of that pipeline where a mistake
would be silent, and proves what they promise for every input, every run and every crash point.

| part | files |
|---|---|
| serving versions: publish, retain, read | `ServingTables`, `ServingReader`, `ChangePlan`, `ServingStore`, `ServingPublisher`, `ServingRetention`, `ServingCleanup` |
| insert-only loader | `Loading`, `LoadResults`, `ConflictDetails`, `LoadRuns`, `ChunkSizes`, `LoaderPasses`, `IcebergLoader` |
| synthetic timeline, and daily runs against one backfill | `Timeline`, `Generator`, `SourceBundle`, `Scenario`, `DailyRuns` |
| bundle validation | `ValidationRules`, `ValidationResults`, `RuleMeanings`, `UnlinkedOrder`, `BundleLines`, `ValidationState`, `BundleValidator` |
| accepted files, run coverage and the whole batch | `AcceptedFiles`, `RunCoverage`, `BatchRun`, `FailingInputs` |
| cancelling a failed attempt's Trino queries | `TrinoCleanup` |
| delivery-performance summary | `ServiceSummary` |
| sequences and sets | `Sequences` |

How it is set up:

- **Serving.** `ServingStore` holds the four tables and a ghost trail of every state they have been
  in. A request may be lost, its answer may be lost, and the server may act on it wrongly; a crash is
  a next request that never arrives. So what a method promises on every return it promises at every
  crash point. A flag in each store and loader says that every request so far was answered, and
  answered without an error: a value the server refuses, such as a revision beyond 64 bits, counts as
  unanswered. While it stands, operations are proved to complete, and not only to be safe.
  `ServingTables.Run` says which changes writers may make, every store operation is proved to be such
  a change, and the safety lemmas speak of all runs. Readers resolve in one state of a run and query
  in another.
- **Loader.** `Loading` defines what a load does to the table and to its totals, as a function of
  the chunks; the methods of `LoaderPasses` and `IcebergLoader` are proved to do that when they are
  the only writer, and to account for every record when they are not.
- **Validation.** `ValidationRules` defines each pass on the set of distinct records; the results
  are proved there. `BundleValidator` runs the passes on lines and their issue lists, and each pass is
  proved to leave valid exactly the records its rule leaves. That the order of lines does not matter
  follows.
- **Meanings.** A definition that both a method and its specification use is also described from
  outside, by lemmas that write its fields out: `ResolvedIsLatest`, `SummariesAgreeIff`,
  `ConflictDetails`, `RuleMeanings`, `Scenario`, `AnswerSays`.
- **Times and amounts.** A calendar is any strictly increasing map from dates to half-hours, so days
  have any positive length. Quantities are whole millionths; percentages are exact real quotients
  rounded half to even. A SHA-256 hash is the content it was taken of.

Three promises hold only under a condition, which is proved to be exact:

- **A run balances for every bundle.** It does over agreeing tables, with every statement answered and
  the lines as many as the manifest says, unless the validator raises, some line cannot be written,
  or the loading step cannot take an accepted record (`BatchRuns.RunBatch`).
  - The validator raises on a line of the effective-dated datasets or of the commitments, quarantined
    or not, whose revision is no number or whose key is no scalar, and on a reading that conforms but
    whose time cannot be read.
  - A line cannot be written if it can be read but has no canonical UTF-8 form: it contains a lone
    surrogate, written as an escape, or a number so large that it is read as infinity. Hashing such a
    record fails, which is caught and quarantines it; writing its quarantine line fails again, and
    that is not caught. So does a line that repeats a lone surrogate as a key.
  - The loading step cannot take a record that contains a line separator such as U+2028, because it
    splits the accepted file with `str.splitlines`, or one the loader's column checks refuse, such as
    a revision written 1.0.

  `FailingInputs` has one lemma for each.
- **The chunk size of a load does not matter.** It matters for the table exactly when an identity
  the table does not hold yet is given two contents, and for the totals exactly when such an identity
  is new or stored as one of them (`ChunkSizes`).
- **What an accepted record refers to is accepted.** An excess order is accepted on the strength of
  a commitment that may itself be rejected in the same pass, because the list of commitments is fixed
  before the loop (`UnlinkedOrder.OrderOutlivesItsCommitment`);
  `ValidationResults.OrdersCommitmentIsAcceptedIff` says when both are accepted.

## Model

| member | source | states |
|---|---|---|
| `ServingTables.EveryStateIsFaithful` | ingestion/batch/pipeline/clickhouse_publisher.py:1325-1416 | In every state of every run of writes, markings and retirements that starts faithful, each ready marker is alone with its id and has exactly the current and history rows its counts and content hashes declare |
| `ServingTables.LegalKeepsFaithful` | ingestion/batch/pipeline/clickhouse_publisher.py:1393-1413 | Writing an unmarked attempt, marking it last with what it declares, or retiring markers each keep the tables faithful |
| `ServingTables.NoVersionReturns` | ingestion/batch/pipeline/clickhouse_publisher.py:1325-1326 | Because attempt ids are fresh, no step brings back a version that was marked before and is not marked now |
| `ServingTables.VersionNeverChanges` | ingestion/batch/pipeline/clickhouse_publisher.py:1325-1416 | A version marked in two states of a run has the same marker, rows and summaries in both |
| `ServingReader.Newest` | apps/api/clickhouse_repository.py:266-269 | The marker an unpinned request is answered from: of those published last, the one with the greatest id |
| `ServingReader.ResolvedIsLatest` | apps/api/clickhouse_repository.py:253-279 | An unpinned request is answered from a version no other was published after, and of those published with it from the one with the greatest id |
| `ServingReader.FilterCounts` | apps/api/clickhouse_repository.py:115-124 | Scoping a version keeps every copy of a wanted row and no other row |
| `ServingReader.QuerySeesWholeVersionOrNothing` | apps/api/clickhouse_repository.py:114-125 | A request that resolved its version in one state and reads facts in any later state sees the complete version its marker declared, or no row because the version was retired; whatever writers did in between |
| `ServingReader.ProbeIsReadyUnlessRetired` | apps/api/clickhouse_repository.py:281-338 | In every run the readiness probe is ready exactly when the version it resolved is still marked, unavailable exactly when there was none, and never reports a row-count mismatch |
| `ServingReader.ProbeSays` | apps/api/clickhouse_repository.py:281-338 | Whatever the tables hold, the probe is ready exactly when one marker names the version and both its counts are those of the stored rows |
| `ChangePlans.KeysCount` | ingestion/batch/pipeline/clickhouse_publisher.py:1773-1776 | A dataset has as many distinct keys as rows exactly when no key repeats |
| `ChangePlans.DateBoundIsAttained` | ingestion/batch/pipeline/clickhouse_publisher.py:1801-1802 | The least and greatest reporting dates are attained and bound every row; they are absent exactly for an empty dataset |
| `ChangePlans.ProfileOf` | ingestion/batch/pipeline/clickhouse_publisher.py:1767-1804 | A dataset has a profile exactly when its keys are unique and every row passes the column and scope checks |
| `ChangePlans.SameProfileIffPermutation` | ingestion/batch/pipeline/clickhouse_publisher.py:1767-1804 | Two datasets have equal profiles exactly when they are permutations of each other |
| `ChangePlans.CandidateEqualsSource` | ingestion/batch/pipeline/clickhouse_publisher.py:1511-1545 | For every pair of unique-key source and base, clone, key deletion and insertion yield a permutation of the source |
| `ChangePlans.FullCandidateEqualsSource` | ingestion/batch/pipeline/clickhouse_publisher.py:1492-1508 | The full plan inserts a permutation of the source |
| `ChangePlans.PlanConservesRows` | ingestion/batch/pipeline/clickhouse_publisher.py:1533-1545 | source = inserted + updated + unchanged and base = updated + unchanged + deleted |
| `ChangePlans.IndexByKey` | ingestion/batch/pipeline/clickhouse_publisher.py:1518-1519 | The key index covers exactly the keys, and with unique keys gives each its own row |
| `ChangePlans.CompareShared` | ingestion/batch/pipeline/clickhouse_publisher.py:1531-1537 | Splits the shared keys into those whose row differs, in order, and a count of the rest |
| `ChangePlans.PlanDatasetChanges` | ingestion/batch/pipeline/clickhouse_publisher.py:1511-1545 | The planning loops compute the specified plan, and refuse exactly the datasets with repeated keys |
| `ServingStores.RemovingInBatches` | ingestion/batch/pipeline/clickhouse_publisher.py:1139-1168 | Deleting two batches of keys one after the other deletes their union |
| `ServingStores.ServingStore.CloneCandidateRows` | ingestion/batch/pipeline/clickhouse_publisher.py:1109-1137 | Adds the base rows under the candidate attempt; base, other dataset and every other attempt stay as they were |
| `ServingStores.ServingStore.DeleteCandidateKeys` | ingestion/batch/pipeline/clickhouse_publisher.py:1139-1168 | For every batch size, deletes exactly the given keys from the candidate; wherever it stops, only that attempt changed |
| `ServingStores.ServingStore.InsertCandidateRows` | ingestion/batch/pipeline/clickhouse_publisher.py:1170-1186 | For every batch size, appends exactly the given rows; wherever it stops, only that attempt changed |
| `ServingStores.ServingStore.WriteSummaries` | ingestion/batch/pipeline/clickhouse_publisher.py:1212-1220 | Stores the change summaries of an unmarked attempt and changes nothing else |
| `ServingStores.ServingStore.InsertMarker` | ingestion/batch/pipeline/clickhouse_publisher.py:1243-1252 | Adds one marker whose rows are already there, or does nothing; an answer means it was added |
| `ServingStores.ServingStore.DropMarkerBatch` | ingestion/batch/pipeline/clickhouse_retention.py:147-158 | Removes markers of the batch only, all of them if the server does as it is told |
| `ServingStores.ServingStore.DropRowBatch` | ingestion/batch/pipeline/clickhouse_retention.py:160-171 | Removes rows of the batch from one table only, and only for attempts without a marker |
| `ServingPublishers.SummaryAccepted` | ingestion/batch/pipeline/clickhouse_publisher.py:679-723 | The summary of a full or incremental plan passes the mode, base and balance rules and counts the source rows |
| `ServingPublishers.PlanCountsChanges` | ingestion/batch/pipeline/clickhouse_publisher.py:679-723 | The summary of a plan counts as inserted the keys new to the source, as deleted those gone from the base, as updated the shared keys whose rows differ and as unchanged those whose rows are equal; without a base every source row is inserted |
| `ServingPublishers.SummariesAgreeIff` | ingestion/batch/pipeline/clickhouse_publisher.py:574-609 | An audit passes exactly when it is one summary for each dataset, non-negative and balanced, with the marker's row counts and time and one base for both |
| `ServingPublishers.TwoSummariesAgree` | ingestion/batch/pipeline/clickhouse_publisher.py:574-609 | Two such summaries pass the audit of their marker, so the final check never raises after the marker is written |
| `ServingPublishers.PublishedBeforeIsReused` | ingestion/batch/pipeline/clickhouse_publisher.py:1308-1323 | While the tables are faithful and audited, a source published before is answered from the newest version holding it, or refused if that belongs to another run; never loaded again |
| `ServingPublishers.NewVersionIsServedIff` | apps/api/clickhouse_repository.py:260-279 | An unpinned reader moves to a newly marked version exactly when it orders after every older one |
| `ServingPublishers.ReuseServes` | ingestion/batch/pipeline/clickhouse_publisher.py:1308-1323 | A version answered without writing serves the source of the call with an audit that agrees; otherwise its marker belongs to another run or its stored audit is broken |
| `ServingPublishers.ReuseDecides` | ingestion/batch/pipeline/clickhouse_publisher.py:1308-1323 | The newest marker of the fingerprint decides: another run, input or row set is a conflict, rows no longer stored as declared are published anew, a broken audit is refused, and all else is reused |
| `ServingPublishers.UsableIff` | ingestion/batch/pipeline/clickhouse_publisher.py:1418-1452 | Stored rows are usable exactly when their keys are unique, they pass the checks, and count and content are those the marker declares |
| `ServingPublishers.MarkerSpansDates` | ingestion/batch/pipeline/clickhouse_publisher.py:1384-1410 | The dates of a marker are the least and the greatest reporting date over both datasets, absent without rows |
| `ServingPublishers.CandidateIsDeclared` | ingestion/batch/pipeline/clickhouse_publisher.py:1376-1410 | The marker of a candidate that is a permutation of the source declares exactly the rows stored under the attempt |
| `ServingPublishers.ServingPublisher.ValidateCandidate` | ingestion/batch/pipeline/clickhouse_publisher.py:1363-1374 | The profile comparison accepts a candidate exactly when both its datasets are permutations of the source |
| `ServingPublishers.ServingPublisher.BuildCandidate` | ingestion/batch/pipeline/clickhouse_publisher.py:1338-1361 | With or without a base, leaves a permutation of the source under the attempt, and touches no other attempt or dataset |
| `ServingPublishers.ServingPublisher.ReadUsableBase` | ingestion/batch/pipeline/clickhouse_publisher.py:1418-1452 | The base is the newest version, used exactly when both its stored datasets still have the count and content its marker declares; then its rows have unique keys |
| `ServingPublishers.ServingPublisher.LoadCandidate` | ingestion/batch/pipeline/clickhouse_publisher.py:1327-1361 | Both datasets of the candidate are permutations of the sources, and both plans pass the audit with the same base |
| `ServingPublishers.ServingPublisher.FindReusable` | ingestion/batch/pipeline/clickhouse_publisher.py:1308-1323 | The answer given without writing is the one the stored versions decide, unless the store is unavailable |
| `ServingPublishers.ServingPublisher.MarkVersion` | ingestion/batch/pipeline/clickhouse_publisher.py:1384-1416 | Audit first, marker last; it never fails on its own summaries, and keeps every version audited |
| `ServingPublishers.ServingPublisher.PublishFresh` | ingestion/batch/pipeline/clickhouse_publisher.py:1325-1416 | A created version holds a permutation of the sources of this call and adds exactly one marker; a rejected candidate stays invisible |
| `ServingPublishers.ServingPublisher.Publish` | ingestion/batch/pipeline/clickhouse_publisher.py:1275-1416 | Whatever rows were stored before, a returned version is marked and holds a permutation of the source of this call, created or reused; wherever it stops only its own attempt changed; it rejects the source exactly when its profile fails; the audit of a created version counts, key by key, how both datasets changed since the newest version if that was usable; with the latest clock it is the version served; and if the store answers and carries out every request for a fresh attempt, it publishes, also over damaged rows, unless an earlier version already decides the answer |
| `ServingRetention.ReadyOrderListsEachOnce` | ingestion/batch/pipeline/clickhouse_retention.py:116-129 | The listing names every ready version once |
| `ServingRetention.PlanSplitsReadyIds` | ingestion/batch/pipeline/clickhouse_retention.py:202-211 | Retained and retired split the ready versions, invisible ones are the unmarked candidates, and exactly min(keep, all) are retained |
| `ServingRetention.RetiredAreOlder` | ingestion/batch/pipeline/clickhouse_retention.py:116-129 | No version is retired for an older one: every retained version has a marker published after each retired one, or with it and under a greater id |
| `ServingRetention.LatestSurvivesCleanup` | ingestion/batch/pipeline/clickhouse_retention.py:259-291 | A version published after every other one is retained, and is served wherever a cleanup stops |
| `ServingRetention.KeptIsStable` | ingestion/batch/pipeline/clickhouse_retention.py:202-203 | Removing versions behind the retained prefix changes neither its members nor their order |
| `ServingRetention.CleaningKeepsTheNewest` | ingestion/batch/pipeline/clickhouse_retention.py:259-285 | Wherever a cleanup stops, the retained prefix is the same and still marked |
| `ServingRetention.InterruptedCleanupReachesSameEnd` | ingestion/batch/pipeline/clickhouse_retention.py:222-227 | A cleanup that stopped anywhere, run again, ends in the state of one that did not stop |
| `ServingRetention.CleanupKeepsServing` | apps/api/clickhouse_repository.py:253-279 | A finished or interrupted cleanup never changes the version an unpinned reader resolves, and leaves every version still marked whole |
| `ServingRetention.CleanedCompletely` | ingestion/batch/pipeline/clickhouse_retention.py:278-285 | Once nothing that was to be deleted is left, the tables are those of a complete cleanup |
| `ServingRetention.CleanKeepsExactlyTheNewest` | ingestion/batch/pipeline/clickhouse_retention.py:259-291 | After a complete cleanup the markers are the retained prefix, no candidate is stored outside it, and it is stored unchanged |
| `ServingCleanups.CleanupKeepsAudit` | ingestion/batch/pipeline/clickhouse_retention.py:160-171 | Every version a cleanup has not retired keeps the audit its publication stored |
| `ServingCleanups.ServingRetentionManager.DeleteReadyMarkers` | ingestion/batch/pipeline/clickhouse_retention.py:263-277 | In batches of at most a hundred, removes the retired markers; every state on the way is one a cleanup may stop in |
| `ServingCleanups.ServingRetentionManager.DeleteBatchFromEachTable` | ingestion/batch/pipeline/clickhouse_retention.py:160-171 | Removes one batch from all three candidate tables, and no marker |
| `ServingCleanups.ServingRetentionManager.DeleteCandidateRows` | ingestion/batch/pipeline/clickhouse_retention.py:278-285 | Removes exactly the doomed attempts in batches; every state on the way is one a cleanup may stop in |
| `ServingCleanups.ServingRetentionManager.Apply` | ingestion/batch/pipeline/clickhouse_retention.py:259-285 | Deletes markers, checks, deletes rows, checks: it either reaches the complete cleanup or stops in a state a cleanup may stop in, because a request stayed unanswered or was carried out wrongly |
| `ServingCleanups.ServingRetentionManager.Cleanup` | ingestion/batch/pipeline/clickhouse_retention.py:213-291 | Every state it goes through keeps the retained versions whole; removed means the complete cleanup was reached and no protected version lost; a plan, nothing to remove, or a refusal before the first deletion changes nothing; a retained version never disappears; and if the store answers and carries out every request, it removes, plans or refuses for a protected version, and nothing else |
| `Loading.OrderListsEachOnce` | ingestion/batch/pipeline/trino_loader.py:701-703 | Grouping lists each identity of a chunk once, in order of appearance |
| `Loading.TotalCountsRecords` | ingestion/batch/pipeline/trino_loader.py:705-721 | Counting records group by group is counting them one by one |
| `Loading.LoggingIsSound` | ingestion/batch/pipeline/trino_loader.py:1021-1049 | The conflict log counts every record and each identity once, details min(limit, identities) and is truncated exactly when there are more |
| `LoadResults.TableHoldsWhatIsKnown` | ingestion/batch/pipeline/trino_loader.py:723-743 | What the dry run remembers is, for every identity, what the table of a live run would hold |
| `LoadResults.FirstAgreedContentIsStored` | ingestion/batch/pipeline/trino_loader.py:949-970 | A load leaves every stored identity as it was, and stores each other one exactly as its first uncontradicted group gives it |
| `LoadResults.RerunReachesSameTable` | ingestion/batch/pipeline/trino_loader.py:663-673 | A load stopped after any chunk and rerun from the start ends in the table of an uninterrupted load |
| `LoadResults.FinalTableDecidesConflicts` | ingestion/batch/pipeline/trino_loader.py:745-785 | The conflict records and identities of a load follow from its input and the table it leaves |
| `LoadResults.LoadAccountsForEveryRecord` | ingestion/batch/pipeline/trino_loader.py:723-812 | planned = inserted = identities added, and inserted + skipped + conflicts = input |
| `LoadResults.RerunReportsSameConflicts` | ingestion/batch/pipeline/trino_loader.py:648-690 | A rerun after any loaded prefix reports the conflict counts of the uninterrupted load |
| `LoadResults.ReplayInsertsNothing` | ingestion/batch/pipeline/trino_loader.py:747-767 | A full replay plans and inserts nothing, leaves the table, reports the same conflict counts, and skips what was inserted |
| `ConflictDetails.DetailsTell` | ingestion/batch/pipeline/trino_loader.py:705-763 | Every detail of the conflict log is true of a chunk: its incoming contents are those the chunk gives the identity, and its existing ones are those stored before the chunk, not empty and different, or none when the chunk contradicts itself |
| `LoadRuns.ChunkedLoadIsOneMerge` | ingestion/batch/pipeline/trino_loader.py:949-970 | Unless a new identity is given two contents, loading in chunks is one MERGE-if-absent of all the records |
| `LoadRuns.ChunksPartition` | ingestion/batch/pipeline/trino_loader.py:1146-1154 | Chunking loses, repeats and reorders nothing |
| `LoadRuns.ChunksAreBounded` | ingestion/batch/pipeline/trino_loader.py:1146-1154 | Every chunk holds between one record and the chunk size |
| `LoadRuns.ChunkSizeDoesNotMatter` | ingestion/batch/pipeline/trino_loader.py:663-673 | Table and totals are the same for every two chunk sizes unless an identity given two contents is new to the table or stored as one of them |
| `ChunkSizes.NewContradictionTellsSizesApart` | ingestion/batch/pipeline/trino_loader.py:707-719 | For every table and records, an identity new to the table and given two contents makes chunks of one and one chunk of all leave different tables |
| `ChunkSizes.TableIgnoresChunkSizeIff` | ingestion/batch/pipeline/trino_loader.py:663-673 | The table is the same for all chunk sizes exactly when no identity absent from it is given two contents |
| `ChunkSizes.UnsettledTellsSizesApart` | ingestion/batch/pipeline/trino_loader.py:747-763 | Loading one by one reports fewer conflict records than loading at once whenever an identity given two contents is new to the table or stored as one of them |
| `ChunkSizes.TotalsIgnoreChunkSizeIff` | ingestion/batch/pipeline/trino_loader.py:663-673 | The totals are the same for all chunk sizes exactly when there is no such identity |
| `LoadRuns.OrderOfRunsDoesNotMatter` | ingestion/batch/pipeline/trino_loader.py:949-970 | Runs that bring the same consistent facts in any order, chunking and repetition leave the same content for every identity |
| `LoadRuns.RunsHaveNoConflicts` | ingestion/batch/pipeline/trino_loader.py:745-763 | Runs over consistent facts that the table does not contradict never report a conflict |
| `LoaderPasses.LoadAccumulator.RecordConflict` | ingestion/batch/pipeline/trino_loader.py:1021-1049 | Updates the counters to the specified conflict log |
| `LoaderPasses.GroupByIdentity` | ingestion/batch/pipeline/trino_loader.py:701-703 | Groups every identity of the chunk with all its records, in order |
| `LoaderPasses.SplitIntoChunks` | ingestion/batch/pipeline/trino_loader.py:1146-1154 | The refilled list yields the specified chunks |
| `LoaderPasses.SplitCandidates` | ingestion/batch/pipeline/trino_loader.py:705-721 | Logs the self-contradictory groups and returns the others |
| `LoaderPasses.PlanDryRun` | ingestion/batch/pipeline/trino_loader.py:723-743 | Plans unknown identities, skips repeats, logs clashes, and remembers what it planned |
| `LoaderPasses.CompareWithExisting` | ingestion/batch/pipeline/trino_loader.py:745-763 | Leaves unknown identities to the MERGE, skips replays and logs clashes with the table |
| `LoaderPasses.ConfirmWritten` | ingestion/batch/pipeline/trino_loader.py:770-789 | Sorts the new identities into confirmed, stored differently by another writer, and absent |
| `LoaderPasses.DryChunkIsStep` | ingestion/batch/pipeline/trino_loader.py:705-743 | The dry-run passes over a chunk amount to one step of the specification, without insertions |
| `LoaderPasses.LiveChunkIsStep` | ingestion/batch/pipeline/trino_loader.py:745-812 | So do the live passes, and every record of the chunk is accounted for |
| `IcebergLoaders.TrinoIcebergLoader.ExistingPayloadHashes` | ingestion/batch/pipeline/trino_loader.py:923-947 | Returns exactly the contents stored for the identities asked for; refuses repeated rows only when there are some |
| `IcebergLoaders.TrinoIcebergLoader.Merge` | ingestion/batch/pipeline/trino_loader.py:949-970 | Adds one row for each absent identity or has no effect; an answer says how many, or omits it; no stored row changes |
| `IcebergLoaders.TrinoIcebergLoader.MergeThenRead` | ingestion/batch/pipeline/trino_loader.py:769-770 | By the only writer, an answered MERGE is confirmed for every new identity |
| `IcebergLoaders.TrinoIcebergLoader.CountConfirmed` | ingestion/batch/pipeline/trino_loader.py:771-812 | Accounts for every new record whether other writers interfered or the row count is missing |
| `IcebergLoaders.TrinoIcebergLoader.ReadAndCompare` | ingestion/batch/pipeline/trino_loader.py:745-763 | Finds the identities no row is stored for, with the specified totals when alone |
| `IcebergLoaders.TrinoIcebergLoader.LoadChunk` | ingestion/batch/pipeline/trino_loader.py:692-812 | One chunk, live or dry; by the only writer the table is untouched or holds the whole chunk, wherever it stops |
| `IcebergLoaders.TrinoIcebergLoader.LoadRecords` | ingestion/batch/pipeline/trino_loader.py:648-690 | Every completed load accounts for every record, whoever else writes; a dry run equals a live run of the only writer into an empty table and writes nothing; the only writer reaches the specified totals and table, and wherever it stops the table holds whole chunks; a dry run, and an answered live run of the only writer into a table without repeats, completes exactly when every record is well formed; every conflict detail names what a chunk brought and what the table held |
| `Timeline.IntervalsForLocalDates` | ingestion/batch/synthetic/generate.py:186-215 | The walk visits every half-hour of the range in order, and the period numbers it counts are those recomputed from timeline positions; it refuses exactly reversed dates |
| `Timeline.DayOfRange` | ingestion/batch/synthetic/generate.py:192-199 | A half-hour lies in a range of dates exactly when its own date does |
| `Timeline.WalkPartitionsRange` | ingestion/batch/synthetic/generate.py:192-211 | Every half-hour of the range belongs to exactly one of its dates |
| `Timeline.PeriodsNumberTheDay` | ingestion/batch/synthetic/generate.py:166-183 | The periods of a date run from 1 to its length in order, whatever the length |
| `Generator.MeterValueAt` | ingestion/batch/synthetic/generate.py:902-919 | The walk from the timeline start computes start value plus all deliveries before the boundary, and refuses exactly earlier boundaries |
| `Generator.RegisterConservesDeliveries` | ingestion/batch/synthetic/generate.py:902-919 | What the register moves over a stretch is what was delivered in it |
| `Generator.CumulativeValues` | ingestion/batch/synthetic/generate.py:928-935 | At every boundary of every range the running list equals the register value walked from the timeline start |
| `Generator.MeterReadingRecords` | ingestion/batch/synthetic/generate.py:922-992 | The readings of a range are, boundary by boundary, those of the timeline |
| `Generator.CommitmentRecords` | ingestion/batch/synthetic/generate.py:678-793 | The commitments of a range are, half-hour by half-hour, those of the timeline |
| `Generator.CapacityRecords` | ingestion/batch/synthetic/generate.py:995-1144 | So are the capacity assessments |
| `SourceBundles.GroupByDate` | ingestion/batch/synthetic/generate.py:846-850 | Indexes every half-hour of the range under its date and period, and nothing else |
| `SourceBundles.ExcessOrderRecords` | ingestion/batch/synthetic/generate.py:796-899 | Produces each date's orders, and fails exactly when a date of the range has fewer than thirteen periods |
| `SourceBundles.BuildBundle` | ingestion/batch/synthetic/generate.py:1180-1223 | All nine datasets of a range, or failure exactly for ranges that are reversed, start too early or hold too short a date |
| `DailyRuns.RangeSaysWhatItsDatesSay` | ingestion/batch/synthetic/generate.py:1193-1223 | A range of any dataset states exactly what its dates state one by one |
| `DailyRuns.RangesAgree` | ingestion/batch/synthetic/generate.py:1193-1223 | An identity shared by any two ranges has the same content in both |
| `DailyRuns.MastersAgree` | ingestion/batch/synthetic/generate.py:1202-1217 | No master dataset gives an identity two contents |
| `DailyRuns.DailyRunsEqualOneBackfill` | ingestion/batch/synthetic/generate.py:1193-1223 | Loading the dates of a range in any order, repetition and chunking leaves the same content for every identity as one backfill, and neither a run nor the backfill reports a conflict |
| `Scenario.RecordsAreRevisions` | ingestion/batch/synthetic/generate.py:678-793 | What a series says of one delivery point at one time are revisions 1, 2 and so on of one fact, each published after the one before |
| `Scenario.LatestReadingShowsRegister` | ingestion/batch/synthetic/generate.py:922-992 | The latest reading of a boundary shows the register; only the first delivery point has an earlier one, after its ninth period, 0.2 MWh lower; when each is published |
| `Scenario.LatestReadingsShowDelivery` | ingestion/batch/synthetic/generate.py:928-949 | From one boundary to the next the latest readings move by the delivery in between |
| `Scenario.RegisterNeverFalls` | ingestion/batch/synthetic/generate.py:902-919 | No register ever falls |
| `Scenario.RegistersStart` | ingestion/batch/synthetic/generate.py:912-915 | The first register starts at 2000 MWh, the second at 3500, each with what the seed adds |
| `Scenario.CommitmentsTell` | ingestion/batch/synthetic/generate.py:678-793 | Which half-hours have which commitment revisions; where the commitment is given up nothing is delivered |
| `Scenario.DeliveriesTell` | ingestion/batch/synthetic/generate.py:645-666 | How far every delivery lies above or below the base commitment |
| `Scenario.CapacitiesTell` | ingestion/batch/synthetic/generate.py:995-1144 | Restriction and deliverable capacity add up to the nameplate; where the assessment is missing, provisional, corrected or zero |
| `Scenario.MastersTell` | ingestion/batch/synthetic/generate.py:266-642 | Corrected versions, and second versions that start when the first ones end |
| `Scenario.AssignmentsTell` | ingestion/batch/synthetic/generate.py:486-545 | Delivery points and meters are assigned once, in force for a year before the timeline starts |
| `Scenario.OrdersTell` | ingestion/batch/synthetic/generate.py:796-899 | The orders of a date lie in its fourth, fifth and thirteenth period, before which they are published; the last is cancelled to nothing |
| `ValidationResults.AcceptedIdentitiesAreUnique` | ingestion/batch/pipeline/validation.py:445-465 | An accepted identity has one accepted content |
| `ValidationResults.SameEpisodeIff` | ingestion/batch/pipeline/validation.py:107-130 | Two records are revisions of one fact exactly when dataset, source system and the dataset's business key agree; the identity adds the revision as written |
| `ValidationResults.AcceptedRowsAreSound` | ingestion/batch/pipeline/validation.py:492-549 | Every accepted row conforms, the times its rules read are readable, half-hours are exact and aligned, effective periods are not empty and capacities are the floored difference |
| `RuleMeanings.LocalRulesSay` | ingestion/batch/pipeline/validation.py:492-549 | Which code a record earns on its own account, and when |
| `RuleMeanings.OpaqueIdsSay` | ingestion/batch/pipeline/validation.py:468-489 | The opaque-id pass keeps exactly the rows whose publisher's revision id names no second identity |
| `RuleMeanings.ReferencesSay` | ingestion/batch/pipeline/validation.py:647-711 | A reference pass keeps exactly the rows that refer to customers and sites, and to points of assignments that do |
| `RuleMeanings.GroupsSay` | ingestion/batch/pipeline/validation.py:714-765 | The seven groups within which periods must not overlap |
| `RuleMeanings.CoversIntervalSays` | ingestion/batch/pipeline/validation.py:768-775 | A period covers a half-hour exactly when all its instants lie in the period |
| `RuleMeanings.ContextCodesSay` | ingestion/batch/pipeline/validation.py:834-887 | When none or several versions of the customer or the site cover the half-hour |
| `RuleMeanings.ContractCodesSay` | ingestion/batch/pipeline/validation.py:943-972 | When no contract of the id covers the half-hour, when several do, and when the one that does has another point or customer |
| `RuleMeanings.ScheduleCodesSay` | ingestion/batch/pipeline/validation.py:974-996 | When an order has no positive current commitment or more than one current commitment |
| `RuleMeanings.MeterCodesSay` | ingestion/batch/pipeline/validation.py:998-1024 | When no authoritative meter covers the reading, when several do, and when the one that does has other metadata |
| `ValidationResults.AcceptedOpaqueIdsAreUnique` | ingestion/batch/pipeline/validation.py:468-489 | A publisher's revision id belongs to one accepted row of its dataset at most |
| `ValidationResults.NoClashBeforeIntervals` | ingestion/batch/pipeline/validation.py:714-765 | Before the interval pass no two active rows of one group overlap, under any of the seven rules |
| `ValidationResults.AcceptedNeverOverlap` | ingestion/batch/pipeline/validation.py:611-644 | Among accepted, current, active rows no two of one group overlap in time |
| `ValidationResults.OverlapIsSharedInstant` | ingestion/batch/pipeline/validation.py:611-616 | Two periods overlap exactly when some instant lies in both |
| `ValidationResults.StandingAloneSurvives` | ingestion/batch/pipeline/validation.py:714-765 | A record that shares no instant with any other active record of its groups, as back-to-back versions do, survives all seven rules |
| `ValidationResults.CoverageIsNeverAmbiguous` | ingestion/batch/pipeline/validation.py:811-887 | The ambiguous verdicts on assignments, customers, sites and meters are unreachable in the interval pass |
| `ValidationResults.AmbiguousContractsServeDifferentPoints` | ingestion/batch/pipeline/validation.py:943-955 | A contract id is ambiguous only between contracts of different delivery points |
| `ValidationResults.AmbiguousCommitmentsComeFromDifferentSystems` | ingestion/batch/pipeline/validation.py:974-988 | Two current commitments for one half-hour come from different source systems, or write one revision number in two ways, as 1 and 1.0 |
| `ValidationResults.AcceptedSetIsClosed` | ingestion/batch/pipeline/validation.py:1083-1101 | After both reference passes every accepted assignment, meter assignment and contract refers to accepted rows only |
| `ValidationResults.AcceptedIntervalsAreCovered` | ingestion/batch/pipeline/validation.py:890-972 | Every accepted interval row has exactly one accepted covering assignment, customer version and site version |
| `ValidationResults.AcceptedReadingsAreMetered` | ingestion/batch/pipeline/validation.py:998-1024 | Every accepted reading has exactly one accepted authoritative meter assignment with its metadata |
| `ValidationResults.OrdersCommitmentIsAcceptedIff` | ingestion/batch/pipeline/validation.py:974-996 | The one positive commitment behind an accepted excess order is accepted exactly when it names the order's customer and exactly one active contract of its id covers the half-hour, with its point and customer |
| `UnlinkedOrder.OrderOutlivesItsCommitment` | ingestion/batch/pipeline/validation.py:974-996 | A bundle whose order is accepted although its commitment is quarantined: the lookup list is fixed before the loop |
| `ValidationResults.UndatedReachesIntervals` | ingestion/batch/pipeline/validation.py:998-999 | A reading without a readable time raises in the interval pass exactly when it survives the duplicate and opaque-id passes: no pass in between looks at it |
| `FailingInputs.WordAsRevisionRaises` | ingestion/batch/pipeline/validation.py:556-558 | A quarantined customer line whose revision is a word makes the validator raise |
| `FailingInputs.ListAsKeyRaises` | ingestion/batch/pipeline/validation.py:564-573 | So does one whose version id is a list |
| `FailingInputs.WordAsOrderRevisionIsQuarantined` | ingestion/batch/pipeline/validation.py:715-718 | In an excess order it does not raise, but only quarantines the line: current revisions are taken of six datasets only |
| `FailingInputs.UnreadableReadingRaises` | ingestion/batch/pipeline/validation.py:998-999 | A reading that conforms with an unreadable time makes it raise |
| `BundleLines.CountIgnoresOrder` | ingestion/batch/pipeline/validation.py:1027-1080 | Counts over lines do not depend on their order |
| `BundleLines.ReportsExactlyTheAccepted` | ingestion/batch/pipeline/validation.py:1027-1080 | The reported accepted lines carry exactly the accepted records |
| `BundleLines.OrderOfLinesDoesNotMatter` | ingestion/batch/pipeline/validation.py:1027-1080 | Permuting the lines changes neither the accepted identities and contents nor the accepted, quarantined and replay counts |
| `BundleLines.LineNumberCounts` | ingestion/batch/pipeline/validation.py:1181-1184 | The number of a line is one more than the number of earlier lines of its dataset |
| `ValidationState.GroupDecides` | ingestion/batch/pipeline/validation.py:445-465 | What the revision groups show about a line is what the set of distinct conforming records says |
| `ValidationState.RevisionsCheckedIsSound` | ingestion/batch/pipeline/validation.py:445-465 | After the duplicate pass the lines still valid carry exactly the records without a revision conflict |
| `ValidationState.IndexShowsReuse` | ingestion/batch/pipeline/validation.py:468-489 | An index entry has two identities exactly when the opaque id is reused among the valid rows |
| `ValidationState.GreatestIsCurrent` | ingestion/batch/pipeline/validation.py:561-582 | A line is current exactly when no record of the bundle, valid or not, publishes a later revision of its episode |
| `ValidationState.HitsArePairs` | ingestion/batch/pipeline/validation.py:630-644 | Comparing each row with the later ones marks exactly the rows that overlap another |
| `ValidationState.PairsAreClashes` | ingestion/batch/pipeline/validation.py:619-644 | Those are exactly the rows the overlap rule forbids among the valid records |
| `ValidationState.ReplayLine` | ingestion/batch/pipeline/validation.py:1027-1048 | A replay's first copy is an earlier line, accepted exactly when the content is |
| `BundleValidators.BundleValidator.SchemaValidate` | ingestion/batch/pipeline/validation.py:405-442 | Every line gets exactly its schema verdict |
| `BundleValidators.BundleValidator.DetectDuplicateRevisions` | ingestion/batch/pipeline/validation.py:445-465 | Conflicting copies are all quarantined; of equal copies all but the first become replays |
| `BundleValidators.BundleValidator.DetectOpaqueIdReuse` | ingestion/batch/pipeline/validation.py:468-489 | Leaves valid exactly the rows whose opaque id names one identity |
| `BundleValidators.BundleValidator.LocalBusinessRules` | ingestion/batch/pipeline/validation.py:492-549 | Leaves valid exactly the rows that break no local rule, those with an unreadable time failing with the fallback code |
| `BundleValidators.BundleValidator.DirectReferenceRules` | ingestion/batch/pipeline/validation.py:647-711 | Assignments first, then what refers to them; leaves exactly the rows whose references hold |
| `BundleValidators.BundleValidator.CurrentEpisodeRows` | ingestion/batch/pipeline/validation.py:561-582 | Returns exactly the latest declared revisions of the datasets asked for, an invalid one hiding its predecessors; raises exactly when a record of them has no whole-number revision or an unhashable key |
| `BundleValidators.BundleValidator.MarkOverlaps` | ingestion/batch/pipeline/validation.py:619-644 | The pairwise loops leave valid exactly the rows that clash with no valid row of the rule |
| `BundleValidators.BundleValidator.EffectiveOverlapRules` | ingestion/batch/pipeline/validation.py:714-765 | The seven rules in turn, each on what the earlier ones left valid; raises exactly when a record of the five effective-dated datasets cannot be placed |
| `BundleValidators.BundleValidator.IntervalRelationshipRules` | ingestion/batch/pipeline/validation.py:890-1024 | Judges every row against lists drawn up before the pass, and leaves exactly those without a code; raises exactly when a record of those datasets or of the commitments cannot be placed, or a reading has no readable time |
| `BundleValidators.BundleValidator.BuildReport` | ingestion/batch/pipeline/validation.py:1027-1080 | Every line is reported once; a replay gives the number of the accepted earlier line it repeats, or zero exactly when that was not accepted; every quarantined line has a reason |
| `BundleValidators.CoverageMatches` | ingestion/batch/pipeline/validation.py:786-808 | Returns exactly the wanted rows, each once |
| `BundleValidators.RequireSingleCoverage` | ingestion/batch/pipeline/validation.py:811-831 | The one match, or the code that says why there is not exactly one |
| `BundleValidators.AssignmentContext` | ingestion/batch/pipeline/validation.py:834-887 | The codes of an assignment's customer and site coverage |
| `BundleValidators.IntervalIssues` | ingestion/batch/pipeline/validation.py:913-1024 | The codes of a row are those its relation to the valid active records determines |
| `BundleValidators.ValidateCandidates` | ingestion/batch/pipeline/validation.py:1083-1101 | For every bundle, the passes in order accept exactly the records that survive every rule over the set of distinct records, or raise, exactly when a record of six datasets cannot be placed among revisions or a reading without a readable time gets to the interval pass |
| `RunCoverage.ReplayDeclaresTheSame` | ingestion/batch/pipeline/coverage_control.py:199-247 | Whichever rows were inserted or reused, and whichever attempt it was, a reconciled run declares the same payload |
| `RunCoverage.BatchRunCoveragePublisher.ExistingPayload` | ingestion/batch/pipeline/coverage_control.py:481-502 | The stored payload, absent exactly for no row, refused for repeated ones |
| `RunCoverage.BatchRunCoveragePublisher.Merge` | ingestion/batch/pipeline/coverage_control.py:511-528 | Adds the row only where the run has none |
| `RunCoverage.BatchRunCoveragePublisher.Publish` | ingestion/batch/pipeline/coverage_control.py:427-453 | Created or reused means one row with this payload is stored; by the only publisher it is created once, then reused with its first lineage kept; changed content is refused and no row ever changes |
| `AcceptedFiles.WholeLineIsSplitOff` | ingestion/batch/pipeline/workflow.py:483-487 | Splitting a file at line breaks gives back a line that contains none |
| `AcceptedFiles.EveryBreakEndsALine` | ingestion/batch/pipeline/workflow.py:483-487 | Every line break ends a line, and a carriage return with a line feed ends one line |
| `AcceptedFiles.FileReadsBackIff` | ingestion/batch/pipeline/workflow.py:480-487 | A file of accepted records is read back as it was written exactly when no record contains a line separator; otherwise reading raises |
| `AcceptedFiles.LoadLines` | ingestion/batch/pipeline/workflow.py:483-487 | Reads the lines that are not blank, in order, and raises at the first that is no JSON |
| `AcceptedFiles.ReadAccepted` | ingestion/batch/pipeline/workflow.py:480-496 | Fails exactly on a line separator inside a record; the count and hash checks against the evidence never do |
| `AcceptedFiles.JsonlContent` | ingestion/batch/pipeline/validation.py:1263-1264 | Writes one line for each record, in order, and raises exactly when some record has no canonical form |
| `BatchRuns.WriteQuarantine` | ingestion/batch/pipeline/validation.py:1302-1304 | The quarantine file of a dataset can be written exactly when each of its quarantined lines can |
| `BatchRuns.WriteResult` | ingestion/batch/pipeline/validation.py:1296-1337 | Writes the accepted file of every dataset, one line for each accepted record in line order, and raises exactly when some accepted or quarantined line cannot be written |
| `BatchRuns.EvidenceIsWritable` | ingestion/batch/pipeline/validation.py:1299-1301 | The accepted file of a dataset can be written exactly when each accepted line of it can |
| `BatchRuns.OutputsAreAllLines` | ingestion/batch/pipeline/validation.py:408-417 | Because a line that cannot be hashed is quarantined, the outputs can be written exactly when every line of the bundle can, whatever the validator makes of it |
| `FailingInputs.QuarantinedLineIsNotWritten` | ingestion/batch/pipeline/validation.py:311-320 | A customer that can be read but not written, as one with a lone surrogate or the number 1e400, is quarantined without harm to the validator and then cannot be written; nothing else stands against declaring the coverage |
| `FailingInputs.RepeatedKeyIsNotWritten` | ingestion/batch/pipeline/validation.py:1207-1224 | So for a line that repeats a lone surrogate as a key, which its issue names |
| `FailingInputs.SeparatorCutsTheLine` | ingestion/batch/pipeline/workflow.py:483-487 | A line separator inside a record cuts its line in two |
| `FailingInputs.SeparatorIsNotLoadable` | ingestion/batch/pipeline/workflow.py:483-487 | No accepted record with one can be loaded, however it is encoded |
| `FailingInputs.AcceptedFloatIsNotLoadable` | ingestion/batch/pipeline/trino_loader.py:893-895 | A revision written 1.0 is accepted by the validator and refused by the loader |
| `BatchRuns.BatchIsAccepted` | ingestion/batch/pipeline/workflow.py:466-470 | The batch of a dataset holds exactly what validation accepted of it |
| `BatchRuns.AcceptedIsConsistent` | ingestion/batch/pipeline/workflow.py:494-508 | What validation accepts never contradicts itself in the loader |
| `BatchRuns.DatasetsHoldAllAccepted` | ingestion/batch/pipeline/workflow.py:466-470 | Split by dataset, no accepted record is lost or counted twice |
| `BatchRuns.AgreeingLoadIsClean` | ingestion/batch/pipeline/workflow.py:510-516 | Loading accepted content into a table that agrees with it reports no conflict and non-negative counts that add up |
| `BatchRuns.ReplayReusesEverything` | ingestion/batch/pipeline/workflow.py:510-516 | Loading it again reuses every record and changes nothing |
| `BatchRuns.EvidenceIsLoadable` | ingestion/batch/pipeline/workflow.py:473-508 | Every dataset can be loaded exactly when every accepted record can |
| `BatchRuns.LoadDataset` | ingestion/batch/pipeline/workflow.py:473-508 | A dataset is loaded, with every record taken, or fails for a record that cannot be taken, an unanswered statement, or, by the only writer, a table that already repeated rows |
| `BatchRuns.LoadValidatedBundle` | ingestion/batch/pipeline/workflow.py:472-519 | Over all datasets inserted + reused + conflicts is what was accepted, with no conflict over agreeing tables; a failure names its dataset and its reason |
| `BatchRuns.DeclaresThePayload` | ingestion/batch/pipeline/workflow.py:544-577 | Balanced counts reconcile and declare a payload fixed by plan and validation |
| `BatchRuns.PayloadTellsTheRun` | ingestion/batch/pipeline/coverage_control.py:218-237 | The declared payload gives the plan, the number of lines, of accepted, quarantined and repeated ones, and succeeded exactly when every line was accepted or repeats an earlier one |
| `BatchRuns.PayloadIsDetermined` | ingestion/batch/pipeline/coverage_control.py:218-237 | The same plan over the same lines in any order declares the same payload |
| `BatchRuns.RunBatch` | ingestion/batch/pipeline/workflow.py:297-641 | Over agreeing tables without repeats, with every statement answered and no other writer, a run declares its coverage exactly when the validator does not raise, every line can be written, the manifest counts the lines as they are, and the loading step can take every accepted record; outputs are not written exactly when some line cannot be, and then no table changes; a bundle that is loaded balances; coverage is created once and then reused, and the stored row has the run's figures, succeeded exactly when no line was quarantined |
| `TrinoCleanup.MatchingActive` | ingestion/batch/pipeline/dbt_build.py:465-513 | Exactly the ids of the queries of the user, with the attempt's tag, that neither finished nor failed; fails exactly on a malformed entry or a matching one without an id |
| `TrinoCleanup.TrinoAttemptQueryController.CancelNew` | ingestion/batch/pipeline/dbt_build.py:444-455 | Sends one DELETE to each listed id that has had none |
| `TrinoCleanup.TrinoAttemptQueryController.CancelAndWait` | ingestion/batch/pipeline/dbt_build.py:419-463 | Terminates within a number of polls given by timeout and interval; returns only after the required consecutive empty listings, having sent exactly one DELETE to every id ever listed, and returns that set sorted; while requests are answered it gives up only past the deadline, never having been quiet long enough, and not before polling for the whole timeout when requests take no time |
| `TrinoCleanup.RunDbtCommandStep` | ingestion/batch/pipeline/dbt_build.py:824-873 | Remote queries are waited for exactly when a started attempt failed, and then a retry is allowed exactly when that wait returned and the local process is gone; a command that never started, or ended with code zero and results nobody accepts, is retried without any wait |
| `ServiceSummary.DisjointScopesAdd` | apps/api/clickhouse_repository.py:414-455 | The summary query over two disjoint scopes adds up the queries over each |
| `ServiceSummary.AggregateSums` | apps/api/clickhouse_repository.py:414-455 | Every count of the aggregate is the number of facts it names, or the sum of that count over them |
| `ServiceSummary.AggregateSumsAmounts` | apps/api/clickhouse_repository.py:414-455 | Every amount is the sum of the known ones, and unknown exactly when none is known |
| `ServiceSummary.AnswerSays` | apps/api/service.py:175-307 | Penalty and net add up to the gross and are given exactly for a final scope; each percentage is its quotient up to half a millionth of a percent, given exactly when its gate is passed |
| `ServiceSummary.RefusedIff` | apps/api/service.py:175-268 | A scope is refused exactly for a second currency, or for a figure its gates make final whose values are missing or not positive |
| `ServiceSummary.UnionIsFinalIffPartsAre` | apps/api/service.py:186-199 | A union of scopes is commitment-complete, SLA-, availability- or financially final exactly when both parts are |
| `ServiceSummary.UnionIsIntact` | apps/api/service.py:229-268 | The union of intact scopes has every governed value its final figures need, so it is answered |
| `ServiceSummary.UnionNetIsSumOfNets` | apps/api/service.py:257-268 | The official net and penalty of a union are the sums of the parts, given exactly when both are |
| `ServiceSummary.HalfEvenIsNearest` | apps/api/service.py:37-40 | Rounding picks the nearest whole number, the even one of two |
| `ServiceSummary.HalfEvenIsMonotone` | apps/api/service.py:37-40 | Rounding keeps order |
| `ServiceSummary.PercentOfSums` | apps/api/service.py:37-40 | The rounded percentage of sums lies between the rounded percentages |
| `ServiceSummary.UnionSlaLiesBetween` | apps/api/service.py:229-240 | The rounded SLA percentage of a union lies between those of its parts |

## Left out

Serving:

- Writers are serialized, as the one-slot pool makes them; two publishers or a publisher and a cleanup at once are not modelled.
- Every fresh attempt id differs from all ids that were ever marked; UUID generation is not part of this model.
- The safety of runs assumes that nothing but publisher and cleanup changes the tables; `Publish` itself assumes nothing about what was stored before.
- Format checks on run ids, hashes and keys, and schema creation and verification.
- Marker statuses other than ready, which the publisher never writes, and malformed stored summaries.
- Tenant authorization and the other scope predicates are one arbitrary predicate on rows.
- `get_intervals`, `get_interval_history` and `get_context` of the repository, and the Trino API repository.

Loader:

- Reason texts of conflicts and the warning about a missing row count.
- Column, schema and lineage checks of the loader are one arbitrary predicate on records, checked for a whole chunk before anything of it is written.
- Table creation and verification, and malformed hash columns in an answer.

Generator:

- Sorting of the records, the check of the generation time, the scenario manifest and decimal text.
- The seeded hash is an arbitrary function of label and position, and London midnight an arbitrary increasing map.
- Names, prices and meter capacities of the master data are values no lemma repeats.
- Most descriptive fields of a record are folded into its text; none depends on the range it was generated in.

Validation:

- JSON Schema is an arbitrary predicate on records.
- Reading the raw files: lines arrive as objects or as unreadable, with whether they can be written, so text that is not UTF-8, or JSON nested too deeply to parse or to write, is not considered.
- Issue messages and related identities; an issue list is the set of its codes, and a payload that cannot be hashed gets the code of a schema failure.
- What a quarantine line says, because nothing reads it again; only whether it can be written.
- Overlap groups are compared pairwise by key instead of through a dictionary sorted by start.
- The two bundle-level switches, all datasets required and synthetic records only.

Coverage:

- Artifact hashes, paths and lineage fields checked before a validated bundle is read; artifacts are given values, stored once.
- JSON itself: which records can be written is arbitrary; those that can are assumed to be written without line feeds and carriage returns and to read back as written, and no beginning of an object to be JSON.
- Format checks on the fields of a coverage row, and verification of its table.
- BatchRuns.RunBatch: does not model the planning and landing steps before validation, because they only move files.

Trino cleanup:

- Response codes, time limits of a single request and operating-system process groups; a request succeeds or fails.
- The checks on the result of a successful dbt command are one given answer.

Summary:

- Decimal division is exact here; apps/api/service.py divides with 28 significant digits before it rounds to six places.
- Labels, currency codes, known volumes and timestamps of the response.
- ServiceSummary.UnionNetIsSumOfNets: assumes non-negative committed energy, as the contracts of the source data demand, unless both scopes have applicable periods.

Not modelled at all: HTTP clients, SQL text, object storage, dbt models, Airflow, request logging, the web interface and the daily schedule beyond one run per date.
