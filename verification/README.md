# Verification of ai-usage

This project models the parts of ai-usage that carry its hard guarantees, and proves them with
Dafny 4.11. `dafny verify dfyconfig.toml` checks everything.

ai-usage receives telemetry records, stores one row per model call in the table `generations`, and
serves aggregates over these rows. Five components share that table, and the modules follow them.

**Rollups and queries.** `Generations` holds rows, records and the canonical token measures.
`Aggregates` and `Maintenance` are the theory: sums and spans of facts, and incremental maintenance
of a GROUP BY whatever its keys. `Rollup` instantiates it with the two daily tables and runs each
trigger statement in place on a `RollupTable`. `Database.Store` holds the rows, the tokens and both
rollups; all writes go through its methods, and each keeps both rollups equal to the plain group-by.
`SplitQuery` shows that a query over raw edge rows and whole rollup days is the raw scan, and `Columns`
that the measures it returns are plain sums and counts of stored columns. `Conversations` does the
same for the Conversations page, `TimeBuckets` merges day rows into weeks and months of the calendar,
and `Reports` and `Charts` put them together for a database in any reachable state.

**Merging and pricing.** `Merge` is what deliveries, pricing writes and token adoptions do to one
row over its whole history. `Catalog` and `Pricing` price one row. `PricingService` is the protocol of
ingest threads, one worker, a one-slot wake channel and a retry timer, as interleaved atomic steps.
`PricingScan` runs the two paging loops in place on a table they modify.

**Tokens.** `TokenStore` interleaves the token operations at lock granularity, with the cache, the
database and the last-used times.

**Counters.** `Counters` says what saves, restores and restarts make of the day's totals, over whole
runs; `Pipeline` is the ingestion code that counts, proved against it. `Sums` sums the values of maps.

**Identities and backups.** `Identity` is the text hashed into a record's ID, `Backup` the daily
scheduler with its callers. `Text` and `Wrappers` hold numerals, the byte order of text, and options.

## What was found

- Rollups, the split query, the merge and the priced rows meet what their comments claim, in every
  reachable state and without exceptions.
- The newest known use of a token may go back by the time two verifications overlap, because
  `Verify` reads the clock before it takes the lock it records under (`TokenStore.RecordsMayOvertake`
  is a run; `TokenStore.NewestNeverDecreasesIff` says exactly when, over any stretch of any run).
- When the UTC clock goes back to a day that is stored already, the rollover of the counters replaces
  that day's row (`Counters.ClockBackLosesCounts`, and exactly when in `Counters.RolloverKeepsIff`).
- A conversation ID that reads like a group key or a filter word ("other:1", "none"), or that is
  changed by trimming, cannot be drilled down to (`Conversations.DrillDownIsExact`, exactly when).
- The service name is not merged: the record delivered first decides it (`Merge.ServiceNameIsFirstCome`).
- `DedupID` joins its parts with bars. A trace and span ID own their text exactly when no bar in them
  leaves room for another split (`Identity.SpanKeyUniqueIff`); the IDs of session-based records are
  unique for any session text (`Identity.EventIdentityInjective`).
- Claude Code records are identified by a request ID or by their session. The two can collide if and
  only if the session is the word "request" or starts with "request|" (`Identity.RequestIdCollidesIff`;
  `Identity.RequestIdMayCollide` has an input for either).
- A scheduled backup whose snapshot is taken after the clock was set back runs again at its time, and
  without clock changes in the zone only then (`Backup.ServedOnceIff`; over runs `Backup.SuccessServes`
  and `Backup.PassesOverIff`).

## Model

| member | source | states |
|---|---|---|
| Maintenance.InsertKeepsGroupBy | internal/storage/rollup.go:214-232 | Upserting a new row's facts turns the group-by of the old rows into the group-by of the new ones, for any keys and facts |
| Maintenance.SubtractLeavesUnpruned | internal/storage/rollup.go:214-232 | Subtracting a row's facts leaves every other group exact and its own with the remaining sums and the old span |
| Maintenance.AddKeepsUnpruned | internal/storage/rollup.go:214-232 | Adding the new version of a row, in the same group or another, commutes with the pending repair of the old group |
| Maintenance.PruneSyncs | internal/storage/rollup.go:237-240 | Deleting a group with zero requests deletes it exactly when no row is left in it |
| Maintenance.RespanRestoresGroupBy | internal/storage/rollup.go:242-284 | The one-sided nearest-row search finds the true bound whenever the removed row was one, finds a row whenever the group still exists, and leaves other groups alone |
| Maintenance.FoldShape | internal/storage/rollup.go:139-151 | A group's request count is its number of rows and its span is exactly their least and greatest timestamp |
| Maintenance.SelectGroups | internal/storage/rollup.go:173-177 | Aggregating whole groups of a rollup aggregates exactly the rows in them |
| Rollup.KeyNamesConversation | internal/storage/conversations.go:138-142 | A group key without a per-day prefix is the row's own conversation ID |
| Rollup.SearchedIsGroup | internal/storage/rollup.go:106-122 | Under its guard the search narrowed to one conversation ID sees exactly the group's rows, as does the search of the whole day |
| Rollup.InsertSyncs | internal/storage/rollup.go:291 | The insert trigger leaves each rollup equal to the group-by |
| Rollup.DeleteSyncsButSpan | internal/storage/rollup.go:292 | The delete trigger leaves all but the span of the removed row's group exact |
| Rollup.UpdateSyncsButSpan | internal/storage/rollup.go:293 | The update trigger does so too, for an update that moves the row within its group or to another |
| Rollup.RespanSyncs | internal/storage/rollup.go:245-284 | The span statement that applies, narrowed or not, makes the rollup equal to the group-by |
| Rollup.UnchangedInputsKeepRollups | internal/storage/rollup.go:59-65 | Skipping the update trigger when no input column changed is sound: the column list is complete |
| Rollup.RollupShape | internal/storage/rollup.go:234-240 | A group exists exactly when some generation has its key, never with zero requests, and spans exactly its generations |
| Rollup.RollupTable.Upsert | internal/storage/rollup.go:214-232 | One row's facts are added to or subtracted from its group in place; only adding widens the span |
| Rollup.RollupTable.Prune | internal/storage/rollup.go:237-240 | Deletes the row's group when it has no requests |
| Rollup.RollupTable.Respan | internal/storage/rollup.go:245-255 | Running both span statements makes conversation_daily equal to the group-by; neither ever stores NULL |
| Rollup.RollupTable.RespanStatement | internal/storage/rollup.go:263-284 | One span statement: repairs each bound the removed row was, from the searched rows |
| Database.Store.Open | internal/storage/rollup.go:322-377 | Opening a database leaves both rollups in sync, whatever a database that is not current holds in them |
| Database.Store.SyncRollup | internal/storage/rollup.go:322-377 | Skips a database that is current, and otherwise rebuilds to the state the triggers keep |
| Database.Store.Regroup | internal/storage/rollup.go:298-299 | Grouping all generations, in any order, fills the rollup with their group-by |
| Database.Store.InsertRow | internal/storage/rollup.go:291-307 | Inserting a row keeps both rollups equal to the group-by |
| Database.Store.DeleteRow | internal/storage/rollup.go:292-308 | Deleting a row keeps both rollups equal to the group-by |
| Database.Store.UpdateRow | internal/storage/rollup.go:293-310 | Updating a row in any way keeps both rollups equal to the group-by |
| Database.Store.InsertGeneration | internal/storage/usage.go:212-227 | Inserts a record or merges it into the row with its ID, and says which |
| Database.Store.InsertGenerations | internal/storage/usage.go:175-210 | A failed batch stores nothing; a successful one delivers every record in order and counts, per source, exactly the rows it added |
| Database.Store.ApplyPricing | internal/storage/pricing.go:59-96 | A price is written only while the row has the revision that was priced and no harness cost; reports whether it set a cost |
| Database.Store.SeedToken | internal/storage/tokens.go:222-258 | The first token ever is written into exactly the rows without one, nothing else of any row changes, and the rollups follow |
| Database.LoadedKeys | internal/storage/usage.go:197-205 | A batch touches only the rows it has records for |
| Database.LoadedIsReplay | internal/storage/usage.go:175-227 | Delivering a batch is delivering, to each row, the records that have its ID, in order |
| Database.CostIsOfOneKind | internal/storage/rollup.go:53-57 | A known cost counts as exactly one of reported, estimated and free unless its source is unknown, and as reported exactly for harness costs |
| Merge.MergeFillsColumn | internal/storage/usage.go:240-272 | A merge keeps every stored value and fills missing ones from the record, for each of the fourteen merged columns |
| Merge.RedeliveryIsNoop | internal/storage/usage.go:238-273 | Delivering a record again, after any later merges, pricing writes and adoptions, changes nothing but the revision |
| Merge.HistorySummarizes | internal/storage/usage.go:238-273 | After any history the row holds exactly what its records report: each column, the earliest time, the harness flag and cost |
| Merge.DeliveryOrderIsIrrelevant | internal/storage/usage.go:238-273 | For agreeing records of one ID every order and multiplicity yields the same columns, timestamp, harness flag and harness cost |
| Merge.HarnessCostStays | internal/storage/usage.go:247-273 | A recorded harness cost is never replaced or re-queued and its row never has pricing provenance again |
| Merge.NewRowsAreQueued | internal/storage/usage.go:275-299 | Over any history without a pricing write, a row is queued exactly when none of its records reports a harness cost, and then has no cost, source or provenance |
| Merge.ServiceNameIsFirstCome | internal/storage/usage.go:238-273 | Over all histories the service name and the source are those of the first record; two histories agree on the name if and only if their first records do |
| SplitQuery.Normalize | internal/storage/usage.go:45-66 | A filter is refused exactly for an unreadable or non-positive token and for an end before its start |
| SplitQuery.NormalizeIsStable | internal/storage/usage.go:45-66 | Normalizing only trims blanks off the texts and fills in the end; normalizing again, at any later time, changes nothing |
| SplitQuery.DimensionsCommute | internal/storage/usage.go:107-142 | Filtering rows and filtering rollup keys select the same, NULL and '' or 0 standing for a missing value |
| SplitQuery.FactsSql | internal/storage/rollup.go:156-201 | Without a conversation and by day, each timestamp of the range falls into exactly one part and no other timestamp into any, whole rollup days counted as days |
| SplitQuery.PartIsRawRows | internal/storage/rollup.go:167-177 | A part read from the rollup gives the facts of the raw rows it covers |
| SplitQuery.PartsCoverRows | internal/storage/rollup.go:199-201 | The union of non-overlapping parts gives the facts of all rows they cover |
| SplitQuery.SplitQueryEqualsScan | internal/storage/rollup.go:153-201 | For every normalized filter, and whatever is grouped by, the split query gives the sums and spans of scanning all matching rows |
| SplitQuery.GroupHasRow | internal/storage/rollup.go:156-201 | The query has a group for some cells, raw or from the rollup, exactly when a matching generation belongs to them |
| Columns.FactsTotalColumns | internal/storage/rollup.go:47-57 | Aggregating the facts of any set of rows gives the sums of their uncached input, non-reasoning output, cache and reasoning columns, the counts of their costs by source, and the sum of their known costs |
| Reports.ScanTotalsColumns | internal/storage/queries.go:186-216 | The same for the rows that match a filter and belong to a group |
| Reports.Query | internal/storage/queries.go:186-216 | Any request to any reachable database is answered as by a raw scan: for every group of cells, and every conversation group, each measure is the sum or the count of its stored column over exactly the matching rows |
| Charts.SeriesEqualsScan | internal/storage/queries.go:246-342 | An hour, day, week or month series of any reachable database shows exactly the buckets with a matching generation, each with the sums and counts of their columns, and their cost when one is known |
| Charts.RowsInSpan | internal/storage/queries.go:344-355 | A bucket shows exactly the matching generations of its hour, day, week or month |
| Charts.TimesAreAscending | internal/storage/queries.go:255-258 | The query's rows are in order and, where they are merged, of whole days |
| Charts.TimeHasRow | internal/storage/queries.go:255-258 | The query has a row for exactly the hours or days with a matching generation |
| Charts.QueriesShareFacts | internal/storage/conversations.go:300-309 | A row of the series is the sum of its sources' rows, since both queries group the same facts |
| Charts.SourceSeriesAgrees | internal/storage/conversations.go:292-339 | Of any reachable database, the series by source sums, in every bucket, to the tokens and requests of the plain series |
| Charts.SourceSeriesEqualsScan | internal/storage/conversations.go:292-339 | The series by source has a point for exactly the buckets and sources of the matching generations, with the sums of their token columns |
| Conversations.GroupsEqualRawGroups | internal/storage/conversations.go:163-186 | The page's groups are the matching rows grouped by key, with the same sums and first and last times, and every matching row is in one |
| Conversations.GroupsTotalColumns | internal/storage/conversations.go:163-186 | Each measure of a group is the sum or the count of its column over the group's rows |
| Conversations.GroupedIff | internal/storage/conversations.go:138-142 | Two rows share a group exactly when they belong to one conversation, or to session-less activity of one kind on one UTC day, unless a conversation ID reads like a per-day key |
| Conversations.FilterSelectsActivity | internal/storage/usage.go:85-99 | A conversation filter selects one kind of session-less activity, all of it, one conversation, or every row; the helper key marks session-less agents |
| Conversations.LatestRowExists | internal/storage/conversations.go:196-200 | Every group on the page has a matching generation at exactly its last timestamp, and none later or before its first |
| Conversations.PageIsWindow | internal/storage/conversations.go:186-189 | A page is the window of the order its offset starts, full unless it is the last; pages do not overlap, and the total is the number of groups |
| Conversations.DrillDownIsExact | internal/storage/conversations.go:103-118 | A card's filter selects exactly its group if and only if the ID is plain |
| Conversations.DayCardSelects | internal/storage/conversations.go:103-118 | The card of an autocomplete or title and progress group leads to all activity of its kind, and any other per-day card to all session-less activity |
| TimeBuckets.BucketStartIsStart | internal/storage/queries.go:344-355 | A bucket starts at or before its days, at its own start, weeks on a Monday less than seven days back |
| TimeBuckets.BucketStartMonotone | internal/storage/queries.go:344-355 | A later day never lies in an earlier bucket |
| TimeBuckets.FirstIsCivil | internal/storage/queries.go:344-355 | Month starts are those of the Gregorian calendar, for every year |
| TimeBuckets.BucketIsSpan | internal/storage/queries.go:344-355 | A timestamp is counted in a bucket exactly when it lies in its span: a whole hour or day, a week from Monday to Monday, a calendar month |
| TimeBuckets.SomeBucket | internal/storage/queries.go:344-355 | Every timestamp lies in the span of its bucket |
| TimeBuckets.Timeseries | internal/storage/queries.go:246-342 | Strictly increasing bucket starts, one for every bucket with a day, every count the exact sum of its days, a cost total exactly when a cost is known |
| TimeBuckets.IndexKeyInjective | internal/storage/conversations.go:343-347 | The index key tells buckets and sources apart |
| TimeBuckets.MergeSourceDays | internal/storage/conversations.go:341-361 | One row for each bucket and source that has a day, holding the exact sum; the sources of a bucket sum to all its rows |
| TimeBuckets.SeriesAgree | internal/storage/conversations.go:341-361 | Merging keeps the agreement: if each day's row is the sum of its sources' rows, so is each bucket's |
| Catalog.BilledBucketsPartition | internal/normalize/normalize.go:69-107 | Single rows and SQL measure the same uncached input and output; the billed buckets sum to input plus output |
| Catalog.WritePrices | internal/pricing/catalog.go:166-208 | Whatever order the price fields are visited in, each set field is written and its default dropped, and an unreadable one stops the estimate |
| Catalog.ForUsage | internal/pricing/catalog.go:166-208 | Each rate is that of the last matching override that sets it; unset cache and reasoning rates follow the final prompt and completion rates |
| Catalog.OverrideSets | internal/pricing/catalog.go:166-208 | An override sets the rates it names; a cache or reasoning rate that nothing names follows the prompt or completion rate it leaves; it is unreadable exactly when a name holds no price |
| Catalog.ThresholdRestricts | internal/pricing/catalog.go:227-246 | A threshold restricts an override to the rows with more prompt tokens, cached ones counted once |
| Catalog.DaysRestrict | internal/pricing/catalog.go:247-253 | Days restrict an override to the rows of those weekdays |
| Catalog.WindowRestricts | internal/pricing/catalog.go:254-268 | A start and an end restrict an override to that time of day, across midnight when the end is not after the start; one alone matches nothing |
| Catalog.ClockReads | internal/pricing/catalog.go:249-263 | The clock reads hours and minutes, and weekdays follow each other from Thursday 1970-01-01 |
| Catalog.FlatRates | internal/pricing/catalog.go:166-208 | Rates without overrides are the same for every row |
| Catalog.EstimateIsFlat | internal/pricing/catalog.go:135-155 | An estimate under overrides is the one under the plain rates they select for the row |
| Catalog.RequestPrice | internal/pricing/catalog.go:150 | A call without tokens costs the request price |
| Catalog.MarginalPrice | internal/pricing/catalog.go:135-155 | One more token of any bucket raises the estimate by that bucket's rate, less the prompt or completion rate where input or output included it; an estimate below zero or beyond a million is dropped |
| Catalog.EstimateReads | internal/pricing/catalog.go:135-155 | An estimate reads the usage and the timestamp only, and without overrides not the timestamp |
| Catalog.Match | internal/pricing/catalog.go:106-133 | Whatever order the catalog is visited in, a model, its alias, or the only entry with that bare name is found, and otherwise nothing |
| Catalog.BareSplits | internal/pricing/catalog.go:124-126 | The bare name of a model is what follows its creator and the first slash |
| Catalog.FreeModelIff | internal/pricing/catalog.go:157-159 | A model is free exactly when its trimmed name ends with "free" in any case |
| Pricing.MergedPriceOk | internal/storage/usage.go:247-265 | A merge either re-queues an estimated row or leaves its cost the estimate of its usage |
| Pricing.PricedPriceOk | internal/pricing/service.go:166-209 | Writing back a price under the revision check accounts for the row's current usage |
| Pricing.RatesStay | internal/pricing/service.go:176-190 | Saved rates survive every write but a harness cost |
| Pricing.RatesFromBook | internal/pricing/service.go:166-209 | A row gets its rates, their name and time from the catalog, and from the manual prices only without a match there; its cost is the estimate under them; later prices keep them |
| Pricing.PricesWhatItCan | internal/pricing/service.go:166-209 | A row without a cost is given zero if its model is free, and otherwise the estimate under its own rates, the catalog's or else the manual ones, whenever there is one |
| PricingService.StepSafe | internal/pricing/service.go:211-250 | Every step keeps every row's price accounted for and every row of the page either unmoved or at a later revision |
| PricingService.RowsAreHistories | internal/pricing/service.go:211-250 | In every state of every run, each row is what its own history of deliveries, adoptions and pricing writes makes of it, so that the laws of histories hold of interleaved runs |
| PricingService.PricesAreExact | internal/storage/usage.go:247-265 | In every state of every run, a row that is not queued and has an estimated cost carries exactly the estimate of its current usage under its saved rates; a free cost is zero and its model free |
| PricingService.SavedRatesStay | internal/pricing/service.go:166-209 | Over any stretch of a run saved rates stay the same until a harness cost clears them |
| PricingService.RatesAreFromBook | internal/pricing/service.go:176-199 | In every state of every run, saved rates are those the process started with, or the worker found them since in the catalog it held, or without a match there among the manual prices |
| PricingService.UnpricedWasTried | internal/pricing/service.go:224-250 | In every state of every run, a row without a cost that is not queued was reached by the worker since its model and tokens last changed, under a book that gave it no price, or was so when the process started |
| PricingService.MemoryIsSaved | internal/pricing/service.go:110-164 | In every state of every run, the catalog the worker prices with is the saved one |
| PricingService.RefreshWhenStale | internal/pricing/service.go:110-164 | A refresh fetches exactly when the catalog is missing or a day old and no failed fetch is five minutes young; what it saves, keeps and cools down |
| PricingService.StepLive | internal/pricing/service.go:59-108 | Every step keeps pending rows covered by a wake-up, the timer, or the rest of the scan |
| PricingService.NoLostWakeup | internal/pricing/service.go:52-108 | Without database errors, an idle worker with pending rows has a full wake slot, a thread about to fill it, or an armed timer |
| PricingService.TimerOnlyWhenCold | internal/pricing/service.go:89-105 | The retry timer is armed exactly for pending rows without a catalog after a failed fetch |
| PricingService.JobEndsOnce | internal/pricing/backfill.go:14-47 | In every run, after the page that ends the historical job no worker scans for it again |
| PricingScan.PageIds | internal/storage/pricing.go:27-54 | A page is the first 200 qualifying IDs after the cursor |
| PricingScan.PriceQueue.PriceOne | internal/pricing/service.go:231-247 | A row is skipped, or priced and written back |
| PricingScan.PriceQueue.Scan | internal/pricing/service.go:224-250 | The queue scan and the historical job end and visit every row that qualified exactly once, in ID order, although they modify what they page through |
| PricingScan.QueueAfterScan | internal/pricing/service.go:224-250 | Afterwards nothing is pending if there is a catalog, and otherwise exactly the rows nothing prices; rows that were not pending stay as they were |
| PricingScan.HistoryAfterScan | internal/pricing/backfill.go:14-47 | After the historical job a cost is missing exactly where nothing prices the row, and no such row is queued; rows that had a cost stay as they were |
| TokenStore.StepInv | internal/auth/tokens.go:87-122 | Every step of every operation keeps the rows, the cache and the last-used times consistent |
| TokenStore.CacheIsDatabase | internal/auth/tokens.go:165-253 | Whenever no operation holds opMu, the cached hashes are exactly the active tokens and the total is the number of rows |
| TokenStore.DeadNeverAuthenticates | internal/auth/tokens.go:187-231 | A revoked or replaced secret never authenticates again once the operation has returned |
| TokenStore.KillsSecret | internal/auth/tokens.go:187-231 | Revoking and regenerating kill the secret the token had, and returning frees the lock |
| TokenStore.HasTokensStays | internal/auth/tokens.go:126-130 | The total never decreases, so authentication once required stays required |
| TokenStore.UsesAreCurrent | internal/auth/tokens.go:211-231 | After Regenerate, neither the pending map nor a flush nor the database holds a time recorded under an older secret |
| TokenStore.ReadingIsLookup | internal/auth/tokens.go:106-122 | In every run, a use about to be recorded is of the token its secret was found to belong to, at the time of that lookup |
| TokenStore.UseIsKept | internal/auth/tokens.go:277-298 | Over any stretch of a run without regeneration or overtaking, the newest known use is at least every use recorded, through flushes, failed flushes and put-backs |
| TokenStore.NewestInStep | internal/auth/tokens.go:106-122 | Between regenerations exactly a record that overtakes a later one of the token, by a millisecond or more and before a flush took it, decreases the newest known use |
| TokenStore.NewestNeverDecreasesIff | internal/auth/tokens.go:277-298 | Over any stretch of a run without a regeneration of the token, failed flushes included, the newest known use never decreases if and only if no record of the token overtakes another |
| TokenStore.RecordsMayOvertake | internal/auth/tokens.go:106-122 | A run in which the newest known use goes from 2 ms to 1 ms |
| Counters.Conservation | internal/ingest/pipeline.go:393-484 | Over any run with non-decreasing days and batches counting through every save, for each counter and reason, persisted, unsaved and lost counts add up to the counts made, and no later day is stored; only crashes and the window between a rollover's snapshot and its reset lose counts |
| Counters.SaveOnlyAdds | internal/ingest/pipeline.go:403-419 | A save never takes anything away from a stored day |
| Counters.RestartContinues | internal/ingest/pipeline.go:317-355 | After a save and a restart the day's totals go on where they were |
| Counters.RolloverKeepsIff | internal/ingest/pipeline.go:403-419 | Two saves on a day keep every count if and only if the day is the process's own or has nothing stored |
| Counters.ClockBackLosesCounts | internal/ingest/pipeline.go:403-419 | A clock going back a day loses what that day had stored |
| Counters.AddedBalanced | internal/ingest/pipeline.go:205-216 | Adding balanced totals gives balanced totals |
| Counters.SavedBalanced | internal/ingest/pipeline.go:421-462 | Saves keep every stored day balanced |
| Pipeline.CountedValue | internal/ingest/pipeline.go:494-517 | A record raises exactly the cells of its outcome, each by one |
| Pipeline.CountedBalanced | internal/ingest/pipeline.go:494-517 | Every received record is normalized, rejected, ignored or an error, and its kind's reasons sum to the kind's counter |
| Pipeline.NewRowsAreCounted | internal/ingest/pipeline.go:542-548 | A source never has more new rows than records, so the per-source split does not underflow |
| Pipeline.LoadedToken | internal/storage/usage.go:238-273 | After any batch a row's token is its old one, or the first a record of the batch names for it |
| Pipeline.BatchTokens | internal/ingest/pipeline.go:524-528 | A batch sent under a token attributes exactly its rows without one to it; without, to the first token their records name |
| Pipeline.DedupOfBounds | internal/ingest/pipeline.go:542-551 | No source is deduplicated more often than it occurs or than the whole batch |
| Pipeline.DedupDone | internal/ingest/pipeline.go:544-550 | The per-source breakdown sums to the deduplicated records of the batch |
| Pipeline.StoreCountsUp | internal/ingest/pipeline.go:524-551 | Storing a batch never lowers a counter or a reason |
| Pipeline.StatsTables.UpsertDailySnapshot | internal/storage/stats_snapshot.go:19-61 | Replaces a day's counters and reasons together or changes nothing |
| Pipeline.Pipeline.BumpHttpReject | internal/ingest/pipeline.go:242-248 | Counts a known reason once and drops any other |
| Pipeline.Pipeline.CountBySource | internal/ingest/pipeline.go:585-591 | Counts the records of each source, and has no other keys |
| Pipeline.Pipeline.CountStored | internal/ingest/pipeline.go:537-541 | The stored counts of all sources sum to the number of new distinct IDs |
| Pipeline.Pipeline.StoreGenerations | internal/ingest/pipeline.go:524-567 | A stored batch splits into new rows and repeats, the repeats into sources; every row it added has the context's token and every row it merged into its old one or this one; a failed one only counts an error. Wakes the pricing worker exactly for a record without a cost, and notifies exactly for a new row |
| Pipeline.Pipeline.ConsumeTraces | internal/ingest/pipeline.go:486-520 | Every cell grows by its outcomes plus the batch's stored counts, none goes down, and the books balance after every batch; its rows are attributed to the context's token |
| Pipeline.Pipeline.ConsumeLogs | internal/ingest/pipeline.go:595-629 | The same for logs, where unsupported records are ignored and not rejected |
| Pipeline.Pipeline.ConsumeMetrics | internal/ingest/pipeline.go:633-644 | Metrics are received and ignored, and nothing else |
| Pipeline.Pipeline.SnapshotReasons | internal/ingest/pipeline.go:442-462 | The base plus the session without zero entries, whatever order the maps are visited in |
| Pipeline.Pipeline.Save | internal/ingest/pipeline.go:403-419 | The whole new state of a save, a failed save and a rollover |
| Pipeline.Pipeline.RestoreBase | internal/ingest/pipeline.go:317-355 | The base is what is stored for today; a failed read changes nothing |
| Identity.DedupLogId | internal/normalize/id.go:29-50 | The text built for a log record, or an error exactly when an identity field is missing |
| Identity.LogKeyInjective | internal/normalize/id.go:26-50 | Different log identities have different texts, for all field contents and any number of tokens |
| Identity.SpanKeyUniqueIff | internal/normalize/id.go:18-23 | A trace and span ID own their text if and only if no bar in them leaves room for another split |
| Identity.EventIdentityInjective | internal/normalize/maki.go:113-114 | Session, timestamp and sequence are told apart for any session text |
| Identity.RequestIdCollidesIff | internal/normalize/claudecode.go:101-120 | A session's records can share an identity with a request ID if and only if the session is "request" or starts with it and a bar |
| Identity.RequestIdMayCollide | internal/normalize/claudecode.go:101-120 | Two colliding pairs: the session "request", and one that starts with "request" and a bar |
| Backup.NextRun | internal/backup/backup.go:408-425 | In any zone, the search ends, with the next run of the schedule, or now when there is no backup yet |
| Backup.NextIsFirst | internal/backup/backup.go:405-425 | In any zone the next run is later than the last backup and the last change, by less than six days, and the first of the schedule's times from the local day on |
| Backup.NextIsLeast | internal/backup/backup.go:405-425 | In a zone without clock changes it is the least scheduled instant after them, at most a day later |
| Backup.NoLostRequest | internal/backup/backup.go:107-123 | A request is accepted unless an attempt runs and stands until one begins; a sleeping worker with a request has a full wake slot or a call about to fill it |
| Backup.WaitsForCurrentSchedule | internal/backup/backup.go:125-141 | A sleeping worker waits for the first time the schedule saved last names after the last success and the last change of the run, unless a change is about to wake it |
| Backup.AttemptsAreDue | internal/backup/backup.go:238-261 | An attempt begins exactly on request, or when the timer finds its due time come, which is later than the last success of the run |
| Backup.StateRemembers | internal/backup/backup.go:427-488 | The worker's last backup, schedule and change are those of the last success, save and change among the steps of its run |
| Backup.ResolvesNextRun | internal/backup/backup.go:241 | Each time the schedule is resolved, the next run is the first time the schedule saved last names after the last success and the last change of the run |
| Backup.SuccessServes | internal/backup/backup.go:480 | Over any run, a scheduled attempt after a success is due later than it, unless the clock went back to an earlier success since |
| Backup.PassesOverIff | internal/backup/backup.go:408-425 | Without clock changes in the zone, a scheduled time is passed over if and only if it is not later than the last success or change of the run |
| Backup.ServedOnceIff | internal/backup/backup.go:405-425 | The next run comes after the served time when the snapshot was not taken before it, and without clock changes in the zone only then |
| Backup.RetriesSlowDown | internal/backup/backup.go:427-494 | In every run, each failure is retried within the last half of a base that doubles with the failures in a row, from a minute up to an hour, and starts over after a success |
| Backup.OnlyRequestsEndBackoff | internal/backup/backup.go:263-277 | A retry delay ends at its deadline, or before it on request; a schedule change does not end it |

## Left out

- HTTP and gRPC handlers, OTLP decoding, templates, the notification hub and configuration: input and presentation.
- Source detection and attribute parsing: a record reaches the pipeline as the outcome they give it.
- SQL text, prepared statements, indexes and query planner hints: statements are modelled by what they do.
- Trace and span ID columns and the creation time of a row, which no aggregate reads.
- Floating-point rounding of costs, 64-bit overflow of counters and timestamps before 1970.
- The JSON of catalogs, manual prices and saved rates: values are taken as parsed, and saved rates as read back unchanged.
- SHA-256, HMAC and random secrets: a hash is injective and a new secret is one the database does not know.
- `PricingService`, `TokenStore` and `Backup` are interleaved steps on values and not classes, because their difficulty is concurrency; what happens inside a critical section or a transaction is one step.
- Token operations that fail in the database, and seeding a known secret, change nothing and are not steps of their own.
- Batches are taken one at a time.
- Pipeline.Pipeline.Save: runs without a batch beside it; what is counted during a save, and lost in the window of a rollover, is the subject of `Counters.Conservation`.
- Live totals of `Stats` and `ReasonCounts` between midnight and the next save.
- The preparation of the backup directory and uploads: an attempt succeeds or fails at will. A zone is any two offset functions within sixteen hours; which of a day's two offsets `time.Date` takes where the clock changes is left open.
- The hash of the rollup definition and the trigger names that tell whether a database is current: taken as given.
- Breakdowns, model ranks, distinct values and the earliest timestamp: queries over the same facts with other groupings, covered by `Reports.Query` alone.
- The pager's total for an offset past the last group.
