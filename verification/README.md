# Football analytics pipeline: verified model

A Dafny model of the medallion pipeline that ingests football data files (Bronze), checks and shapes them
(data quality, Silver) and records what it did (audit), with proofs about it.

Four components are modelled and then joined:

- **Player history.** `dim_players` is a Type 2 dimension: each batch is merged into the previous output by
  comparing row hashes; facts find the version valid on a match date by scanning a newest-first index.
  `Scd2` has the merge join by join, `Scd2Detection` when comparing hashes is comparing columns, `Scd2History` its
  exact effect on one key, `Scd2Runs` and `Scd2Laws` what every run and every merge keeps, `Scd2Reuse` which
  surrogate keys are handed out twice, `Scd2Partitions` what reading all partitions does, `DimPlayers` tokenisation,
  `AsOf` and `Facts` the lookup, `Calendar` and `BatchDay` the dates as text.
- **Audit.** `AuditLog` is the audit database as a value, `AuditDao` the mutable DAO proved against it; the file
  table always equals a fold of the event log. `AuditEffects` says what each call does, field by field. `Reconcile` is
  the reconciliation pass, `PipelineRuns` the run table.
- **Bronze store.** Identical bytes are not written twice; a resolver follows checksums to a partition.
  `BronzeStore`, `BronzeRuns` and `BronzeTheorems` prove that reading through it agrees with a store that always
  writes; `BronzeFailures` shows what a failed file does to later reads; `BronzeWriter` is the imperative writer and
  runner.
- **Data quality.** `DqRules`, `DqRunner`, `DqReport`, `DqConfig`: rule evaluation, the exact split into clean and
  quarantined rows with their reasons, the report and the gate.

`Type1`, `SilverPlayers`, `SilverInputs`, `SilverAudit` and `SilverRun` are one Silver run over all of this, and
`SilverTheorems` closes the loop: the counts a Silver run records add up to what Bronze ingested, through any chain
of skipped files. `SilverChain` runs batch after batch, each on the players that the runs before it left.
`SilverExamples` and `ChainExamples` have concrete runs for them. `Sequences`, `Ordering`, `Frames`, `Hashing` and
`Wrappers` are the shared vocabulary.

Objects that the code updates in place are classes here (`Dao`, `Lake`, `Runs`), loops are loops, and each such
method is proved equal to a function. What that function means is then stated without it: in terms of the rows of the
file, the columns of the table, the words of the report.

`dafny verify dfyconfig.toml` checks the whole project.

## Assumptions

- A file's checksum stands for its rows and its source, its path for its batch and source; registration stamps
  increase; batches are ingested one at a time (`BronzeTheorems.ValidRun`, `LoadOk`). `RedeliveryIsSkipped` shows a
  run that satisfies them. `LateFailureStrandsIff` says what breaks when an earlier batch is failed late, and
  `BronzeFailures.RetryStrandsLaterBatch` shows the code doing it: `RetryIsOutOfOrder` says that only the order of
  batches is violated.
- Each merge gets the previous merge's output. `SilverTheorems.ExistingOk` is the merge's contract on it; every chain
  of such runs keeps it (`ReachedIsOk`, `SilverChain.ChainKeepsPlayersOk`).
- An empty frame leaves no partition on disk (`BronzeStore.WriteParquet`), so an empty dimension is read back as
  absent, and an empty file cannot be resolved.
- SHA-256, `str()`, `float()`, the country and position lookups are function parameters. Clocks are parameters.

## Where code and documentation differ

The model follows the code.

- `mark_failed` says it is allowed from non-terminal states (src/metadata/audit.py:722-725); it has no status check
  (`AuditLog.FailedFromAnyStatus`).
- Silver says that re-runs let failed sources be retried (src/silver/run.py:21-23). In the audit log a failed file
  stays failed: neither a Bronze retry (`BronzeTheorems.RetryNeverHeals`, `BronzeWriter.RerunFailsAgain`) nor a
  Silver one (`SilverAudit.RerunNeverHeals`) brings its row back. Artifacts do come back: building never looks at
  the row's status, so a re-run of a batch with its own partitions builds them again and the layer may then succeed
  (`SilverChain.RerunRebuilds`). A failed file that had been skipped has no partition, and then an older delivery of
  the source is read in its place (`BronzeRuns.ResolverIsTotal`, `BronzeFailures.StaleRead`).
- The Bronze writer says it never raises (src/bronze/writer.py:116-119), but it catches only the loader's own error
  type; an engine error while reading escapes and leaves the run row running (`BronzeWriter.RunBronze`).
- The club dimension says it keeps the last occurrence of a key (src/silver/dimensions.py:123); it keeps the first
  (`Type1.DistinctKeepsFirst`). In Silver the two coincide, because clean clubs have distinct ids
  (`DqConfig.CleanReferencesAreKeyed`).
- The appearance fact documents a window open at its end (src/silver/facts.py:163-165); the scan includes both ends
  (src/silver/facts.py:317-322). `AsOf.LookupIsHalfOpenIff` says when the two agree; `AsOf.SameDayRun` is a run of
  hourly batches on which they do not.
- A row counts as unchanged when the hashes of its tracked columns agree, not the columns. On text without the
  separator the two differ exactly when a present value spelled like the sentinel meets a missing one
  (`Hashing.HashMisleadsIff`, `SentinelHidesAChange`); text with it can move the boundary between two columns
  (`SeparatorHidesAChange`).
- The merge says it returns the old dimension when both sides are empty (src/silver/scd2.py:327-329); that branch is
  taken exactly when there is neither a historical version nor an incoming row (`Scd2History.OutputEmptyIff`), and
  then current versions survive that any other merge would have dropped.
- The runner reads every partition of `dim_players` at once to load the full history (src/silver/run.py:199-206), but
  each partition already has it. From the third batch on that is several snapshots of the same versions: every read
  meets the merge's contract only if no batch keeps a version it has read (`Scd2Partitions.StoredIsKeyedIff`), and
  equal snapshots of one player double at every read (`SnapshotsDouble`).
- Surrogate keys continue from the largest existing one, as the merge says; but current versions whose key a batch
  leaves out are dropped. When the highest-numbered version is dropped and the batch opens no version, the next
  number falls (`Scd2Runs.NextSkFallsBackIff`), and keys that were in use are handed out again: over whole runs
  exactly when a batch opens a version while the next number lies below the largest seen (`Scd2Reuse.RunReusesIff`).
  `TwoPlayersOneKey` is a run in which two players carry one key. Full snapshots never reuse a key
  (`Scd2Runs.RunNeverRewritesHistory`).
- Players are reconciled like the other sources, but their Silver count is the whole dimension, history included, so
  `row_count_drift` fires on them without any loss: exactly when rows were rejected and the dimension had history, a
  clean player changed, or no player is clean (`SilverTheorems.PlayersDriftIff`, `SilverExamples.PlayersDriftHappens`).

## Model

| member | source | states |
|---|---|---|
| Hashing.HashRow | src/utils/hashing.py:38-57 | the loop returns the digest of the separator-joined pieces, missing values as the sentinel |
| Hashing.WithRowHash | src/engines/pandas_engine.py:225-260 | column-by-column accumulation over all rows gives every row the reference hash of its columns |
| Hashing.JoinInjective | src/utils/hashing.py:31-57 | joining with a separator that occurs in no part loses nothing |
| Hashing.JoinSnoc | src/utils/hashing.py:38-57 | joining puts one separator between neighbours and none at the ends |
| Hashing.RowHashIs | src/utils/hashing.py:31-57 | the hash spelled out: the digest of the texts, missing values as `<NULL>`, joined by U+241F |
| Hashing.HashEqualIffAgree | src/utils/hashing.py:38-57 | with an injective digest and clean values (no separator, not spelled like the sentinel), hashes are equal iff the values agree one by one, null equal to null |
| Hashing.HashMisleadsIff | src/utils/hashing.py:31-57 | on values without the separator, comparing hashes goes wrong iff all pieces are spelled alike and somewhere a missing value meets a present one |
| Hashing.SeparatorHidesAChange | src/utils/hashing.py:31-57 | values containing the separator: two rows that differ column by column hash alike when the boundary between columns moves |
| Hashing.SentinelHidesAChange | src/utils/hashing.py:31-57 | such a disguise: a value spelled like the sentinel hashes like a missing one |
| Frames.KeyLeIsTotalOrder | src/silver/scd2.py:546-556 | natural keys are totally ordered, numbers before text before missing, so sorting by key is deterministic |
| Frames.ValuesInOrder | src/silver/scd2.py:546-556 | key values order numbers by size, then text, then missing values |
| Scd2.NextSk | src/silver/scd2.py:374-407 | the next surrogate key exceeds every key in the dimension and is at least 1 |
| Scd2.BuildNewVersions | src/silver/scd2.py:470-521 | the loop numbers rows in natural-key order from the start key, all current until the far future |
| Scd2.Scd2Merge | src/silver/scd2.py:103-344 | validation errors in order; otherwise the join-by-join merge and its five counts, with the initial load as a special case |
| Scd2.MergeIntoExisting | src/silver/scd2.py:166-344 | appending only non-empty parts and bumping the next key gives exactly the merge |
| Scd2.InitialLoadIsMerge | src/silver/scd2.py:410-467 | the separate initial-load path equals the general merge into an empty dimension |
| Scd2.ValidateMeans | src/silver/scd2.py:352-371 | a frame is accepted iff key and tracked columns are configured and present; the errors name exactly the missing columns, key columns first |
| Scd2.JoinsImplementCategories | src/silver/scd2.py:166-324 | under unique keys the anti-, inner and semi-joins compute exactly the documented row categories |
| Scd2.ChangedRowsByKey | src/silver/scd2.py:224-227 | CHANGED incoming rows are, in order, those whose key has a current version with another hash |
| Scd2.UnchangedRowsByKey | src/silver/scd2.py:228-232 | UNCHANGED incoming rows are, in order, those whose key has a current version with the same hash |
| Scd2Detection.HashDetectsIff | src/silver/scd2.py:179-191 | for any two rows whose tracked text lacks the separator: equal hashes mean agreement on all tracked columns iff the rows are not disguised |
| Scd2Detection.CategoryIffColumns | src/silver/scd2.py:193-236 | a row is UNCHANGED iff its key is current and all tracked columns agree, null with null, and CHANGED iff its key is current and one does not |
| Scd2Detection.MergeDetectsColumns | src/silver/scd2.py:193-236 | so the merge's joins put exactly those rows into the two categories, and the rows of keys without a current version into NEW |
| Scd2.HistoricalIsNotCurrent | src/silver/scd2.py:166-177 | the anti-join on surrogate keys is exactly the versions that are not current |
| Scd2.VersionsByKey | src/silver/scd2.py:260-294 | the semi-joins keep, or close, exactly the current versions whose incoming row has the same, or another, hash |
| Scd2History.MergeOnKey | src/silver/scd2.py:253-335 | the exact effect of a merge on the versions of one key: history kept, the current version kept, closed or dropped, at most one version opened |
| Scd2History.OutputEmptyIff | src/silver/scd2.py:326-335 | no output part exists iff the dimension has no historical version and the batch no row |
| Scd2History.ValidIsWellKeyed | src/silver/scd2.py:103-150 | a valid dimension meets the contract of the next merge |
| Scd2Runs.MergeKeepsValid | src/silver/scd2.py:253-335 | every merge of key-unique rows keeps intervals of a key disjoint and at most one version current |
| Scd2Runs.MergeKeepsComplete | src/silver/scd2.py:274-324 | a full snapshot keeps every key a chain: each end date is the next start, the last version is current |
| Scd2Runs.SurrogateKeysStayDistinct | src/silver/scd2.py:247-324 | surrogate keys stay distinct over a merge |
| Scd2Runs.OpenedFromBatch | src/silver/scd2.py:470-521 | a version numbered from the next key on has a row of the batch, starts on its day, is current and ends on 9999-12-31 |
| Scd2Runs.KeptFromBefore | src/silver/scd2.py:253-310 | any other version was there before with the same row, key and start |
| Scd2Runs.ChangedBeforeNew | src/silver/scd2.py:296-324 | in the numbers a merge gives, all changed keys come before all new ones |
| Scd2Runs.NumberedByKey | src/silver/scd2.py:494-513 | and within each of the two they follow the natural keys |
| Scd2Runs.EveryRunIsValid | src/silver/scd2.py:103-344 | over every run of merges in date order: distinct surrogate keys, no overlap, at most one current version a key |
| Scd2Runs.SnapshotRunIsComplete | src/silver/scd2.py:103-344 | over every run of full snapshots every key seen has an unbroken chain ending in its one current version |
| Scd2Runs.MergeExtends | src/silver/scd2.py:298-324 | a covering merge keeps every version's identity and gives new versions larger surrogate keys than all before |
| Scd2Runs.RunNeverRewritesHistory | src/silver/scd2.py:256-310 | along a run of snapshots every earlier version survives with key, row and start, and no surrogate key is reused |
| Scd2Runs.VersionSurvivesIff | src/silver/scd2.py:253-335 | without snapshots: a version survives a merge iff it is not a current version whose key the batch leaves out |
| Scd2Runs.OpensIff | src/silver/scd2.py:296-324 | a merge opens a version, numbered from the next key on, iff some incoming row has no current version with the same hash |
| Scd2Runs.NextSkFallsBackIff | src/silver/scd2.py:374-407 | the next surrogate key falls iff the highest-numbered version is dropped and nothing is opened |
| Scd2Reuse.KeysAfterMerge | src/silver/scd2.py:374-407 | no old key returns in a merge, and the new keys run on from the next one without a gap |
| Scd2Reuse.KeyReusedIff | src/silver/scd2.py:374-407 | a key in use is lost by one merge and handed out by the next iff it lies among the keys that the next numbers its opened versions with |
| Scd2Reuse.NextMergeReusesIff | src/silver/scd2.py:374-407 | the very next merge hands some key out again iff the highest-numbered version was dropped, nothing was opened, and its numbers reach a key that was in use |
| Scd2Reuse.UsedIffBelowMark | src/silver/scd2.py:374-407 | the keys that a run has used so far are exactly those from 1 up to the largest next key it has seen |
| Scd2Reuse.BatchReusesIff | src/silver/scd2.py:374-407 | a batch opens a version under a key that an earlier version carried, however long ago it was lost, iff it opens one while the next key lies below that mark |
| Scd2Reuse.RunReusesIff | src/silver/scd2.py:374-407 | so over whole runs, whatever the batches: some key is handed out twice iff some batch does that |
| Scd2Reuse.OpenedIff | src/silver/scd2.py:296-324 | whether a batch opens a version is known before the merge: iff some row repeats no current version |
| Scd2Reuse.TwoPlayersOneKey | src/silver/scd2.py:374-407 | a run of three batches in which versions of two different players carry one surrogate key |
| Scd2Partitions.ConcatKeyedIff | src/silver/run.py:194-217 | reading two partitions as one meets the merge contract iff each does and they share neither a surrogate key nor a current natural key |
| Scd2Partitions.NextReadIsKeyedIff | src/silver/run.py:194-217 | reading a merge together with what it was merged into meets the contract iff the batch dropped every version there was |
| Scd2Partitions.StoredIsKeyedIff | src/silver/run.py:194-240 | over whole runs that write one partition a batch and read all of them: every read meets the contract iff every batch drops all versions read before it |
| Scd2Partitions.SnapshotsDouble | src/silver/run.py:194-240 | equal snapshots of one player double what is read each time, so from the third batch on the partition written has several current versions of one player under one surrogate key |
| Scd2Laws.IncomingAccounting | src/silver/scd2.py:193-236 | every incoming row is exactly one of new, changed, unchanged |
| Scd2Laws.ExistingAccounting | src/silver/scd2.py:166-236 | every existing version is exactly one of historical, kept, closed, absent |
| Scd2Laws.OutputAccounting | src/silver/scd2.py:253-342 | the output has historical + unchanged + 2 * changed + new rows |
| Scd2Laws.OutputSizeIff | src/silver/scd2.py:253-342 | known before the merge: the output has another number of versions than the batch has rows iff the dimension has history, or a row revises a version, or an empty batch meets a dimension that is not empty |
| Scd2Laws.MergeIgnoresRowOrder | src/silver/scd2.py:494-513 | permuting the incoming rows gives the same multiset of versions with the same surrogate keys and the same counts |
| Scd2Laws.MergeIsIdempotent | src/silver/scd2.py:181-272 | merging the same rows again, at any later date, finds every row unchanged and returns the same multiset of versions |
| DimPlayers.TokenizeFrame | src/pii/tokenize.py:167-219 | tokenising a frame column by column: listed columns become missing or `pii_` and the first eight characters of sha256(salt + str(value)), others stay, absent ones stay absent (columns listed once); an empty salt raises |
| DimPlayers.BuildDimPlayers | src/silver/dimensions.py:293-422 | tokenise, choose the effective date, merge; an empty salt and schema errors raise in that order, the statistics are the merge's, and every version opened carries tokens in the listed columns |
| DimPlayers.MergeCommutes | src/silver/dimensions.py:361-412 | any row change that leaves key and hash alone commutes with the merge: same categories, intervals and surrogate keys |
| DimPlayers.TokenizeIsHarmless | src/silver/dimensions.py:225-290 | tokenising columns that are neither key nor tracked is such a change |
| DimPlayers.TokenizedRun | src/silver/dimensions.py:346-412 | over whole runs, tokenising every batch gives the tokenised dimension |
| DimPlayers.OpenedProtected | src/silver/dimensions.py:361-412 | every version that a build with tokenisation opens carries a row of the file in which each listed column is missing or `pii_` and the first eight characters of the salted digest, and every other column is unchanged |
| DimPlayers.NoPlainText | src/pii/tokenize.py:116-153 | over any run with tokenisation on, every version ever kept has that form |
| Type1.DistinctKeepsFirst | src/engines/pandas_engine.py:285-286 | deduplication keeps exactly the first row of each key, and its result is keyed |
| Type1.KeyedClubsArrive | src/silver/dimensions.py:83-126 | clubs keyed by id all reach the dimension, in order, with exactly the listed columns |
| Type1.KeyedCompetitionsArrive | src/silver/dimensions.py:129-168 | competitions keyed by id all reach the dimension with the listed columns and their country code |
| Calendar.BuildDimDate | src/silver/dimensions.py:174-217 | the loop lists every date of the inclusive range exactly once by strictly increasing key, with its columns and day name; an inverted range, and one ending on the last representable date, raise |
| Calendar.NextDayIsNext | src/silver/dimensions.py:205-214 | adding one day gives the least later date |
| Calendar.OrdinalsFollow | src/silver/dimensions.py:205-214 | the ordinal that the weekday is computed from counts days, leap years included |
| Calendar.WeekdaysFollow | src/silver/dimensions.py:205-214 | the weekday computed from the calendar advances by one, modulo 7, from each day to the next |
| Calendar.MondayAnchor | src/silver/dimensions.py:205-214 | 2024-01-01 was a Monday, which with the daily step fixes every weekday |
| Calendar.RowMeans | src/silver/dimensions.py:194-213 | a row of dim_date column by column: quarter of the month, day name in English, weekend on Saturday and Sunday, key, ISO text, season |
| Calendar.SeasonReads | src/silver/transforms.py:257-300 | from August to July a date has the season label of the starting year: four digits, a dash, the last two digits of the next year |
| Calendar.IsoOrder | src/silver/scd2.py:274-310 | string order on ISO dates is calendar order and date-key order (section 5.1 of RFC 3339) |
| Calendar.DatedTextParses | src/silver/facts.py:220-241 | however a date is spelled (leading blanks, one or two digits a month or day, with or without a time), the text parses to that date's key and season |
| Calendar.TripleKey | src/silver/facts.py:220-241 | three digit fields make a key even where they are no date; then there is no season |
| Calendar.NoDashNoDate | src/silver/facts.py:220-241 | text without dashes has neither key nor season |
| BatchDay.DerivedDayIsBatchDay | src/silver/run.py:126-154 | a batch id of any granularity gives back the date it was made from |
| BatchDay.LaterBatchLaterDay | src/silver/run.py:126-154 | batch ids in text order, of any two granularities, have days in calendar order |
| BatchDay.SameDayTies | src/silver/run.py:126-154 | hourly batches of one day have different ids and the same day, so their versions tie |
| BatchDay.UndatedIsToday | src/silver/run.py:126-154 | a batch id without dashes is dated today |
| BatchDay.BadHourIsToday | src/silver/run.py:126-154 | an id with an hour past 23 is dated today |
| AsOf.ScanFindsLatestStart | src/silver/facts.py:282-323 | scanning newest first finds the version with the latest start not after the date, among those whose closed window contains it |
| AsOf.LookupExplained | src/silver/facts.py:282-323 | on any valid history: which version the scan returns, ties included |
| AsOf.LookupIsHalfOpenIff | src/silver/facts.py:282-323 | the scan agrees with the half-open lookup iff at most one version starts on the date and the last-started version does not end on it |
| AsOf.HalfOpenIsUnique | src/silver/facts.py:282-323 | at most one version's half-open window contains a date |
| AsOf.ChainLookup | src/silver/facts.py:282-323 | on a chain the scan finds nothing iff the date is before the first start, and is the half-open lookup iff no two versions start on the date |
| AsOf.StrictRunLookup | src/silver/facts.py:282-323 | on runs of snapshots with strictly increasing days the scan is the half-open lookup, for every date |
| AsOf.FirstLoadIsFound | src/silver/dimensions.py:380-392 | a player of the first load is found on every date from 1900-01-01 to 9999-12-30, whatever full snapshots follow |
| AsOf.PastLookupsAreStable | src/silver/facts.py:282-323 | a full-snapshot merge changes no lookup of a date before its batch day |
| AsOf.SameDayLookup | src/silver/facts.py:282-323 | two versions starting on one day: the stable sort makes the scan return the older one |
| AsOf.SameDayRun | src/silver/facts.py:282-323 | a run with two batches of one day: the scan on that day returns the older of the two versions, the half-open window the newer |
| Facts.BuildPlayerVersionIndex | src/silver/facts.py:244-279 | grouping and in-place sorting give each player's versions newest first |
| Facts.LookupPlayerSkAt | src/silver/facts.py:282-323 | the scan stops at the first version whose window contains the date part; missing ids, dates and players give none |
| Facts.TextLookupIsDayLookup | src/silver/facts.py:282-323 | the scan on ISO text finds the version that the lookup on calendar days finds |
| Facts.BuildFactAppearances | src/silver/facts.py:116-214 | one fact per appearance, in order, each with season, date key and the player key of its date; a frame without an input column raises |
| Facts.AppearanceFactIsAsOf | src/silver/facts.py:116-173 | a dated appearance gets its player's version as of that date and keeps every other column |
| Facts.NumericDateScanned | src/silver/facts.py:306-322 | a number in an appearance's date column is scanned as the text it prints as |
| Facts.NobodyWithoutDate | src/silver/facts.py:303-309 | without a player id or a date there is no player key |
| Facts.AppearanceFactOnRun | src/silver/facts.py:116-173 | on every strict run of snapshots that version is the one whose half-open window contains the match date |
| Facts.RunDates | src/silver/scd2.py:470-521 | batches dated by real days give versions dated by real days |
| Facts.BuildFactGames | src/silver/facts.py:58-108 | one fact per game, unless an input column is missing or a goal count is unreadable, when the build raises |
| Facts.GameFactIsDated | src/silver/facts.py:58-108 | a dated game gets the key and season of its date, and keeps every other column |
| Facts.GameFactOutcome | src/silver/transforms.py:216-249 | in the built fact the outcome is home_win iff home goals exceed away goals, away_win iff the reverse, draw iff equal, counts cut toward zero as int() does |
| Facts.GameFactUnknown | src/silver/transforms.py:235-243 | with a count missing the outcome is unknown |
| Facts.GamesBuildIff | src/silver/facts.py:82-101 | the builder raises iff an input column is missing or a game has both counts and int() cannot read one |
| Facts.UntextedDates | src/silver/facts.py:220-241 | a whole number in the date column is the key already; a missing date has neither key nor season |
| Facts.OutcomeIsAntisymmetric | src/silver/transforms.py:216-249 | swapping the sides swaps the winner; unknown iff a count is missing |
| DqRules.EvaluateNotNull | src/dq/rules.py:104-124 | a row passes iff none of the columns is missing |
| DqRules.EvaluateRange | src/dq/rules.py:141-175 | a row passes iff its value is missing or a number within both bounds |
| DqRules.EvaluateUnique | src/dq/rules.py:188-205 | counting keys passes a row iff no other row has its key |
| DqRules.EvaluateForeignKey | src/dq/rules.py:225-258 | a row passes iff the target is unknown, the value missing, or in the lookup set |
| DqRules.Evaluate | src/dq/rules.py:82-308 | every rule type evaluates to its meaning, row by row |
| DqRules.OneOccurrence | src/dq/rules.py:188-205 | a count of one means no other row has the key |
| DqRules.NotNullMeans | src/dq/rules.py:97-124 | a row passes iff every listed cell is there and not missing |
| DqRules.UniqueMeans | src/dq/rules.py:181-205 | a row passes iff every other row differs from it in a listed column |
| DqRules.SchemaMeans | src/dq/rules.py:266-308 | a row passes iff every expected column is in the frame |
| DqRules.RangeMeans | src/dq/rules.py:141-175 | both bounds are inclusive and optional; text counts as the number it spells, missing passes, other text fails |
| DqRules.IdsSpelled | src/dq/rules.py:101-186 | the ids of not-null, unique and range rules, spelled out |
| DqRunner.RunDqForSource | src/dq/runner.py:183-318 | the loops compute the split, reasons and outcomes of the specification |
| DqRunner.SplitRows | src/dq/runner.py:251-286 | each row goes to the side its failed critical rules decide; which rows and reasons these are is `HalvesExact` |
| DqRunner.PositionsExact | src/dq/runner.py:251-286 | clean positions increase and are exactly the rows that pass every critical rule |
| DqRunner.CleanIffNoneFailed | src/dq/runner.py:254-267 | a row is clean iff it failed no critical rule |
| DqRunner.HalvesExact | src/dq/runner.py:251-286 | the clean rows are, in order and unchanged, exactly the rows that pass every critical rule; the failing records are, in order, exactly the others, with every column as it was and a reason |
| DqRunner.ReasonNamesBroken | src/dq/runner.py:254-267 | the reason joins with semicolons the ids of exactly the critical rules that the row does not pass, in rule order |
| DqRunner.DqKeepsEveryRow | src/dq/runner.py:279-286 | clean rows and failing records together are, as a multiset, the rows of the frame, reasons aside |
| DqRunner.OutcomesExact | src/dq/runner.py:226-247 | one outcome a rule in rule order: id, severity, rows of the frame, and the number of rows that do not pass |
| DqRunner.DqConservesRows | src/dq/runner.py:279-286 | clean plus quarantined rows are all rows |
| DqRunner.DqIsIdempotent | src/dq/runner.py:183-318 | running DQ on the clean rows rejects nothing, uniqueness rules included |
| DqRunner.CleanRowsKeyed | src/dq/rules.py:188-205 | a critical uniqueness rule makes its columns a key of the clean rows |
| DqRunner.CleanRowsNotNull | src/dq/rules.py:104-124 | a critical not-null rule leaves no clean row without a value |
| DqRunner.CleanRowsReference | src/dq/rules.py:225-258 | a critical foreign-key rule leaves only missing values and values of its lookup set |
| DqRunner.QuarantineIffCriticalFailure | src/dq/runner.py:251-286 | a row is quarantined iff some critical rule reports a failing row |
| DqReport.BuildBatchReport | src/dq/report.py:136-169 | the nested loops and sums are the batch summary |
| DqReport.SummariesAdd | src/dq/report.py:136-169 | totals over two lists of reports are the sums of theirs, and sources with critical failures are listed in order |
| DqReport.SummaryOfOne | src/dq/report.py:110-169 | for one checked source: its rows, clean and quarantined; how many critical and how many warning rules some row does not pass; its name iff there is such a critical rule |
| DqReport.BatchTotals | src/dq/report.py:136-169 | rows in = clean + quarantined; critical failures, quarantined rows and failing sources are positive together |
| DqReport.GateIsExact | src/orchestration/airflow_wrappers.py:223-240 | the gate fails iff a row was quarantined and 100 * quarantined > threshold * rows in; for thresholds of at least zero the second alone decides |
| DqReport.GateDecides | src/orchestration/airflow_wrappers.py:223-240 | without a report the gate passes and says so; otherwise it passes or fails |
| DqConfig.CleanPlayersAreKeyed | configs/dq_rules.yaml:78-86 | whatever players Bronze holds, the clean ones have distinct, present ids |
| DqConfig.CleanReferencesAreKeyed | configs/dq_rules.yaml:43-59 | clean clubs and clean competitions are keyed by their ids |
| DqConfig.TargetsCoverRules | src/dq/rules.py:358-373 | every configured foreign-key rule of every source is critical and refers to one of the four preloaded targets |
| AuditDao.Dao.EmitEvent | src/metadata/audit.py:230-256 | the event is appended iff the file has a row |
| AuditDao.Dao.RegisterFile | src/metadata/audit.py:294-387 | register, repeat or conflict: both tables end as the specification says, a raise changes neither |
| AuditDao.Dao.MarkIngesting | src/metadata/audit.py:390-424 | both tables end as the specification says, a raise changes neither |
| AuditDao.Dao.RecordIngestionComplete | src/metadata/audit.py:427-478 | both tables end as the specification says, a raise changes neither |
| AuditDao.Dao.RecordQuarantineCount | src/metadata/audit.py:481-530 | both tables end as the specification says, a raise changes neither |
| AuditDao.Dao.MarkTransforming | src/metadata/audit.py:533-583 | checks every file before moving any; both tables end as the specification says |
| AuditDao.Dao.RecordSilverComplete | src/metadata/audit.py:586-646 | checks every file before moving any; both tables end as the specification says |
| AuditDao.Dao.RecordGoldComplete | src/metadata/audit.py:649-712 | both tables end as the specification says, a raise changes neither |
| AuditDao.Dao.MarkFailed | src/metadata/audit.py:715-774 | never raises: on an unregistered file the foreign-key error rolls the update back |
| AuditDao.Dao.RecordDrift | src/metadata/audit.py:777-812 | one event, or an error on an unregistered file |
| AuditLog.ExecKeepsConsistent | src/metadata/audit.py:294-812 | every writer keeps the table equal to the fold of the log, every lifecycle legal, every event on a row |
| AuditLog.EveryRunIsConsistent | src/metadata/audit.py:294-812 | so in every reachable state, reconciliation included: each row's source, checksum, status, five counts and error fields are the fold of its events, whose statuses are a lifecycle prefix and then failures |
| AuditLog.RunContinues | src/metadata/audit.py:294-812 | calls made on a reached state are part of a longer run |
| AuditLog.ExecGrows | src/metadata/audit.py:294-812 | the log only grows, rows keep identity and never move back in status, and a writer that raises changes nothing |
| AuditLog.RunGrows | src/metadata/audit.py:294-812 | between any two points of a run every file keeps its row, identity and checksum, its status never falls, and the log keeps what it held |
| AuditLog.LifecycleStep | src/metadata/audit.py:110-117 | a legal transition extends a lifecycle prefix; a failure may follow anything |
| AuditLog.WriteKeepsConsistent | src/metadata/audit.py:230-256 | updating the selected rows and logging one event for each keeps table and log consistent |
| AuditLog.TransformingIsAllOrNothing | src/metadata/audit.py:533-583 | all files of a source move to transforming, or none does and the call raises |
| AuditLog.FailedFromAnyStatus | src/metadata/audit.py:715-774 | a failure is recorded from every status, transformed included |
| AuditLog.FailingUnregisteredDoesNothing | src/metadata/db.py:142-151 | failing an unregistered file changes neither table |
| AuditEffects.FileIsRegistered | src/metadata/audit.py:294-387 | a new file: its row field by field with all counts unset, and one or two events; nothing else changes |
| AuditEffects.RegisteredAgain | src/metadata/audit.py:325-345 | the same bytes again change nothing, other bytes are refused |
| AuditEffects.IngestingMarked | src/metadata/audit.py:390-424 | a registered file starts, with its stamp and one event; from any other status the call raises; no other row changes |
| AuditEffects.IngestionRecorded | src/metadata/audit.py:427-478 | a started file is ingested with its source count and its bronze count, each in its own column, and one event; from any other status the call raises |
| AuditEffects.QuarantineRecorded | src/metadata/audit.py:481-530 | every file of the source gets exactly the rejected count and one event; every other column and row stays |
| AuditEffects.TransformingMarked | src/metadata/audit.py:533-583 | if all files of the source are ingested they all move, with one event each; otherwise the call raises and nothing changes |
| AuditEffects.SilverRecorded | src/metadata/audit.py:586-646 | if all files are transforming they end transformed with exactly the silver count and a stamp, one event each; otherwise nothing changes |
| AuditEffects.GoldRecorded | src/metadata/audit.py:649-712 | every file of the source gets exactly the gold count and a stamp, with status, the other counts and errors as before, and one gold_finished event; all other rows stay |
| AuditEffects.FailureRecorded | src/metadata/audit.py:715-774 | from any status the file is failed with stage, stamp and at most 4000 characters of the message, and one event |
| AuditEffects.UnregisteredRefused | src/metadata/audit.py:272-291 | on an unregistered file the status writers raise and marking it failed does nothing |
| AuditEffects.OnlyLogged | src/metadata/audit.py:777-812 | schema drift and reconciliation log one event with their payload, or are refused without a file |
| Reconcile.ReconcileFile | src/metadata/audit.py:1078-1200 | one file: its findings and one event with their counts, which is one audit call |
| Reconcile.ReconcileBatch | src/metadata/audit.py:1078-1200 | one list of findings a file, in file order, one event a file, and no row changes; in the audit log these are recorded calls like any other |
| Reconcile.FindingIff | src/metadata/audit.py:1078-1200 | a finding of a code is reported for a file iff its rule fires |
| Reconcile.FindingsOfCounts | src/metadata/audit.py:1078-1200 | for a file with all counts each code is reported iff one comparison of them holds: bronze > source; bronze != rejected + silver; bronze > 0 and silver = 0; 20 * rejected > bronze > 0; bronze = 0; status neither transformed nor failed |
| Reconcile.NothingWithoutCounts | src/metadata/audit.py:1078-1200 | a rule whose counts are missing does not fire |
| Reconcile.EventCounts | src/metadata/audit.py:1183-1197 | the event of a file carries the number of its findings, how many are critical (inflated, drift, total loss), and the rest as warnings |
| Reconcile.FindingsInOrder | src/metadata/audit.py:1101-1181 | findings of a file come in one fixed order, critical ones first, each at most once |
| Reconcile.FilesInOrder | src/metadata/audit.py:831-843 | the files are exactly those of the batch, ordered by source and then by path |
| BronzeStore.CandidatesAre | src/bronze/resolver.py:36-71 | candidate batches are exactly the other batches that ingested the checksum |
| BronzeStore.FirstOnDiskIs | src/bronze/resolver.py:150-174 | the first candidate with a partition on disk, none iff no candidate has one |
| BronzeStore.CandidatesNewestFirst | src/bronze/resolver.py:36-71 | candidates come newest first |
| BronzeStore.PriorIsLatest | src/metadata/audit.py:871-899 | the prior ingestion of some bytes is the latest successful file with their checksum, none iff there is none |
| BronzeStore.CurrentIsLatest | src/metadata/audit.py:902-1019 | the current ingestion of a source is the latest successful one registered no later than the batch's last file, or the latest of all when the batch has no file |
| BronzeRuns.CurrentAudit | src/metadata/audit.py:902-1019 | as of its own batch, a successfully ingested file is its source's most recent ingestion |
| BronzeRuns.ResolverIsExact | src/bronze/resolver.py:74-174 | on a sound store the resolver finds a partition with exactly the file's rows, and none iff the file was empty |
| BronzeRuns.ResolverIsTotal | src/bronze/resolver.py:74-174 | for any source and batch: its own partition, else the rows of the source's most recent successful file as of the batch, else nothing |
| BronzeRuns.RegisterKeepsSound | src/metadata/audit.py:294-387 | registering a file keeps the store sound |
| BronzeRuns.CompleteKeepsSound | src/bronze/writer.py:203-208 | completing an ingestion whose rows are on disk, its own or an earlier one's, keeps the store sound |
| BronzeRuns.FailKeepsSound | src/metadata/audit.py:715-774 | failing a file of the latest batch keeps every other success resolvable |
| BronzeRuns.WriteKeepsSound | src/engines/pandas_engine.py:81-153 | writing the partition of a started file keeps the store sound |
| BronzeTheorems.AttemptKeepsSound | src/bronze/writer.py:105-297 | one attempt keeps the store sound, never changes a partition, and a reported success is an ingested file with the delivered rows |
| BronzeTheorems.AttemptReports | src/bronze/writer.py:170-279 | exactly what an attempt reports: started or changed files are refused, bytes some batch has ingested are skipped in favour of the latest such batch, others are written unless the write raises |
| BronzeTheorems.AttemptResolves | src/bronze/resolver.py:74-174 | right after a written or skipped attempt the resolver delivers the file's rows |
| BronzeTheorems.EveryRunIsSound | src/bronze/run.py:178-241 | every valid run of attempts and later audit calls leaves a sound store |
| BronzeTheorems.PartitionsNeverChange | src/engines/pandas_engine.py:104-146 | a partition, once written, never changes and never disappears in a valid run |
| BronzeTheorems.NaiveMatchesEveryRun | src/bronze/writer.py:182-279 | after every valid run the store that always writes holds every successful file's rows under its own batch |
| BronzeTheorems.DedupAgreesWithNaive | src/bronze/resolver.py:74-174 | reading any successful file through the resolver gives what that store holds |
| BronzeTheorems.RedeliveryIsSkipped | src/bronze/writer.py:182-230 | delivering the same rows in a later batch is a valid run, is skipped, and is read back in full |
| BronzeTheorems.RetryNeverHeals | src/metadata/audit.py:390-424 | an attempt on a file past registration reports failure, touches no partition, and with the same bytes leaves the file failed |
| BronzeTheorems.LateFailureStrandsIff | src/bronze/resolver.py:74-174 | failing an earlier row strands a skipped file iff no other success with its bytes has a partition on disk |
| BronzeFailures.DeliveryAppends | src/bronze/writer.py:105-297 | delivering a new file appends exactly one ingested row, and a partition iff no earlier success has its bytes |
| BronzeFailures.FailedAttemptIsRecorded | src/bronze/writer.py:232-297 | an attempt that gets past registration and reports failure leaves the file failed at the bronze stage |
| BronzeFailures.RetryIsFailure | src/metadata/audit.py:390-424 | retrying a started file with its own bytes does to the database what failing it does |
| BronzeFailures.RetryStrandsLaterBatch | src/bronze/resolver.py:74-174 | after the same rows in two batches, a retry of the first fails its file, and the second, still ingested, resolves to nothing |
| BronzeFailures.RetryIsOutOfOrder | src/bronze/run.py:178-241 | that retry meets every condition of a valid run but one: its batch is no longer the latest |
| BronzeFailures.StaleRead | src/bronze/resolver.py:74-174 | a valid run after which the failed file of a batch is read as an older delivery with other rows |
| BronzeWriter.Lake.Write | src/engines/pandas_engine.py:81-153 | partitioned overwrite replaces only the partitions present in the data |
| BronzeWriter.WriteBronzeSource | src/bronze/writer.py:105-297 | the writer with its early returns, failure marking and escaping loader errors does exactly what the attempt specification says |
| BronzeWriter.FinishWrite | src/bronze/writer.py:182-297 | duplicate check, start, skip or write, completion, failure marking: exactly the specification |
| BronzeWriter.RunBronze | src/bronze/run.py:130-250 | skips a succeeded batch, otherwise attempts every source in order and records success iff none was left unwritten; a loader error that escapes ends the run and leaves its row running |
| BronzeWriter.TotalsAdd | src/bronze/run.py:214-219 | the recorded total adds up over the sources |
| BronzeWriter.TotalOfOne | src/bronze/run.py:214-219 | written rows count; skipped and failed sources add nothing |
| BronzeWriter.RerunFailsAgain | src/bronze/run.py:178-245 | in a re-run every source whose file had got past registration is reported as not written if its turn comes, so the layer does not succeed |
| PipelineRuns.Runs.MarkStarted | src/metadata/runs.py:39-57 | upsert: the row is running, with every result cleared |
| PipelineRuns.Runs.MarkSuccess | src/metadata/runs.py:60-72 | the existing row succeeds with its counts; without a row nothing happens |
| PipelineRuns.Runs.MarkFailed | src/metadata/runs.py:75-83 | the existing row fails with the message cut to 4000 characters; without a row nothing happens |
| SilverPlayers.DerivedColumns | src/silver/dimensions.py:322-356 | derived columns hold the normalised values, the batch column is gone, every other column is the source's |
| SilverPlayers.PlayerColumnsAre | src/silver/dimensions.py:322-356 | the columns handed to the merge: the file's but for the batch column, and the derived ones |
| SilverPlayers.MergeInputIsKeyed | src/silver/run.py:423-430 | whatever Bronze delivers, the rows handed to the merge have distinct, present player ids |
| SilverPlayers.SilverKeepsPlayersValid | src/silver/run.py:576-595 | over every sequence of deliveries, duplicates and missing ids included, no player ever has two current or overlapping versions |
| SilverPlayers.TokenisedDimension | src/silver/dimensions.py:366-378 | switching tokenisation on tokenises the dimension and changes nothing else, over whole runs |
| SilverPlayers.SilverProtects | src/silver/dimensions.py:361-378 | with tokenisation on, every version that Silver ever keeps is a clean delivered player with tokens in the listed columns |
| SilverInputs.BuildFkLookups | src/dq/runner.py:117-175 | a resolvable target gets all its non-missing values, an unresolvable one stays absent, a missing column raises |
| SilverInputs.LookupRaisesIff | src/dq/runner.py:150-168 | preloading raises iff one of the four referenced files can be read and lacks its id column |
| SilverInputs.ResolveUnseen | src/bronze/resolver.py:74-174 | resolution depends only on batch, source, checksum, status and registration of the audit rows |
| SilverInputs.QuarantineUnseen | src/silver/run.py:401-458 | recording quarantine counts between reads changes no frame that is read |
| SilverAudit.PhaseOnSource | src/silver/run.py:487-499 | in each phase a source's row takes exactly its own step, whatever the other sources do |
| SilverAudit.FinaliseOther | src/silver/run.py:664-691 | finalising one source, failure included, leaves the others' rows alone |
| SilverAudit.RecordedRow | src/silver/run.py:664-691 | an ingested file ends transformed with its counts iff its artifact was built, otherwise failed at the silver stage |
| SilverAudit.RecordedColumns | src/silver/run.py:664-691 | column by column: an ingested file ends transformed with its silver count, or failed at the silver stage; a positive rejected count is recorded; every other column stays |
| SilverAudit.RerunNeverHeals | src/silver/run.py:487-499 | whatever a Silver run does, audit rows only advance: a failed file's row stays failed, even when its artifact is rebuilt |
| SilverRun.CheckSource | src/silver/run.py:401-458 | one source: read, check, record the rejected count iff it is positive |
| SilverRun.CheckSources | src/silver/run.py:401-458 | the DQ pass delivers the clean frame and result of every readable source and records every rejection |
| SilverRun.ResultsInOrder | src/silver/run.py:401-458 | one DQ result for each source that could be read, in source order |
| SilverRun.MarkSources | src/silver/run.py:480-499 | every source is marked, whatever the marks of the others do |
| SilverRun.BuildArtifacts | src/silver/run.py:503-658 | which artifacts are built, and their rows; a missing input column fails its source, and appearances need the players of the same run |
| SilverRun.FinaliseSource | src/silver/run.py:664-691 | a built artifact's count is recorded, otherwise every file of the source is failed |
| SilverRun.Process | src/silver/run.py:370-691 | the audit database ends as the three phases say for the flows of the batch |
| SilverRun.Conclude | src/silver/run.py:693-708 | the layer succeeds iff every artifact was built, with the sum of their rows |
| SilverRun.RowsAdd | src/silver/run.py:693-708 | the rows of a layer add up over its artifacts |
| SilverRun.RowsOfOne | src/silver/run.py:693-708 | a built artifact counts its rows, one that failed counts nothing |
| SilverRun.RunSilver | src/silver/run.py:330-723 | a succeeded batch is skipped without a trace; otherwise audit, artifacts, report and verdict are as specified |
| SilverTheorems.FrameOfIngested | src/silver/run.py:157-191 | Silver reads an ingested file back as it was, unless it was empty |
| SilverTheorems.BuiltIff | src/silver/run.py:503-658 | an ingested source gets its artifact iff its file has rows, its clean frame has the columns its builder selects, and neither an empty salt, merging, reading goals nor a missing players artifact stops the build |
| SilverTheorems.FreshClubsAreProcessed | src/silver/run.py:503-524 | a freshly ingested clubs file with rows and an id column gets its artifact, so the conservation theorems have inputs |
| SilverTheorems.CleanRowsHaveParents | src/dq/runner.py:117-175 | every reference of a clean row is missing or a value of the parent file ingested in the same batch, skipped or not |
| SilverTheorems.ReferencePassesIff | src/dq/rules.py:225-258 | a row passes a configured reference iff lookups raise, the parent cannot be read, the value is missing, or some row of the parent frame has it |
| SilverTheorems.ReferenceBreaksIff | src/dq/runner.py:117-175 | on a sound store, through any chain of skips, a row breaks it iff its value is present and no row of the parent file has it |
| ChainExamples.ReferenceHasParent | src/dq/runner.py:117-175 | a concrete batch where that applies: the appearance of a delivered player is clean and its reference is found |
| SilverTheorems.RunRecords | src/silver/run.py:664-691 | after a run a source has one row, with the counts of its flow |
| SilverTheorems.SilverConserves | src/silver/run.py:664-673 | silver rows + rejected rows = bronze rows for clubs, competitions, games and appearances, so the drift rule does not fire |
| SilverTheorems.ReachedIsOk | src/silver/run.py:576-595 | every dimension that earlier deliveries produced meets the merge contract assumed of the existing one |
| SilverTheorems.DimensionSizeIff | src/silver/scd2.py:253-342 | the merged dimension has another number of versions than there are clean rows iff it had history, a clean player differs from its current version, or no player is clean while it had some |
| SilverTheorems.PlayersDriftIff | src/metadata/audit.py:1117-1133 | for players it fires iff rows were rejected and, before the merge, the dimension has history, a clean player differs from the current version, or no player is clean while the dimension has some |
| SilverTheorems.FirstLoadNeverDrifts | src/metadata/audit.py:1117-1133 | on a first load that condition is false |
| SilverExamples.PlayersDriftHappens | src/metadata/audit.py:1117-1133 | a concrete delivery and dimension: players are processed, nothing is lost, and the rule fires |
| SilverTheorems.ReportedIff | src/metadata/audit.py:1078-1200 | a source with one file is reported with a code iff the rule fires on its row |
| SilverTheorems.NoDriftReported | src/metadata/audit.py:1117-1133 | after any valid Bronze run and a Silver run that builds the artifact, reconciliation reports no row-count drift for these four sources |
| SilverChain.ChainIsDimension | src/silver/run.py:576-595 | over any chain of Silver runs, each given the players the one before left, the dimension is the one that the delivered files give |
| SilverChain.ChainKeepsPlayersOk | src/silver/run.py:576-595 | before every run of such a chain the dimension meets the merge contract, with at most one current version a player |
| SilverChain.ChainAppearances | src/silver/run.py:576-658 | in the appearances artifact of any run of full snapshots with increasing days, each dated appearance has the key of its player's version whose half-open window contains the date |
| SilverChain.GamesDelivered | src/silver/run.py:609-627 | the games artifact of a run has one fact a clean game, in order, home_win, away_win or draw by its goals |
| SilverChain.ClubsDelivered | src/silver/run.py:504-523 | the clubs artifact of a run has every clean club, in order, with exactly the listed columns |
| SilverChain.CompetitionsDelivered | src/silver/run.py:527-545 | the competitions artifact of a run has every clean competition, in order, with its country code |
| ChainExamples.AppearanceHappens | src/silver/run.py:576-658 | a concrete batch where that applies: from two delivered files to an appearance that carries the key of the version opened in the same run |
| SilverChain.RerunRebuilds | src/silver/run.py:503-658 | when a batch has its own partitions, what Silver builds does not depend on the audit database, failed files included |

## Left out

- SilverPlayers.SilverKeepsPlayersValid: takes each merge's input dimension to be the previous output; the runner reads all partitions of `dim_players` at once (src/silver/run.py:194-217), which is that for the first two batches and breaks the merge's contract as soon as two batches share a player (`Scd2Partitions.StoredIsKeyedIff`).
- SilverChain.ChainIsDimension: likewise each run is given the previous output, and so for `ChainKeepsPlayersOk` and `ChainAppearances`.
- Scd2.Scd2Merge: column order and the union's alignment by name; rows are maps from column to value.
- Frames.KeyLeIsTotalOrder: keys mixing numbers and text, where Python's comparison raises; the model orders numbers first.
- AuditLog.EveryRunIsConsistent: the stamps of registration, start and finish are not part of the fold; events carry their own.
- BronzeWriter.WriteBronzeSource: the text of error messages; a Parquet write either happens whole or raises without effect.
- SilverRun.RunSilver: the text of error messages, the quarantine files and the JSON report file; exceptions inside DQ itself, which the model's DQ cannot raise.
- DqReport.GateIsExact: exact arithmetic instead of floating point, and no rounding of the percentage shown.
- Hashing.WithRowHash: one `str()` for every cell instead of pandas' formatting of dtypes, and one missing value for None, NaN and NA.
- Calendar.DatedTextParses: Python's `int()` also accepts signs, underscores and non-ASCII digits; `strip()` also removes non-ASCII blanks.
- BatchDay.DerivedDayIsBatchDay: `strptime` also accepts other blanks than the space between date and time.
- DqRunner.RunDqForSource: the defensive branch for a rule that returns a list of the wrong length, which no rule does.
- Parquet, CSV, SQLite and YAML mechanics, file hashing and the loader: a partition is a sequence of rows, a checksum a string, and whether a load succeeds, fails or raises is an input.
- SELECT without ORDER BY is read in table order.
- The column-type check of the schema rule: the code checks only that columns exist.
- Country and position normalisation, which are table lookups.
- Gold artifacts and views, whose engine is an external library.
- Spark, Airflow wiring, Docker, command line, configuration, manifest, watermarks, `dq_results`, logging.
- Wall-clock time and ties of registration stamps; a logical clock stands in.
