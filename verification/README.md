# SF1R-Lite: a verified model of its data movement

SF1R-Lite is a distributed search engine. Documents live on shards; a master spreads searches over
the shards' workers, merges what they answer, and moves documents between shards when shards are
added or removed. Every worker stores its documents under internal docids, keeps filter values in
columns beside them, and marks deletions in a bit filter. This project models the places where data
is moved, merged or re-identified and proves that nothing is lost, doubled or put out of order
there. Where the code does not keep a promise, the project says exactly when it does.

`dafny verify dfyconfig.toml` checks everything.

## What is where

| module | subject |
|---|---|
| `Orders` | sorted sequences, ordered-map iteration, text order |
| `Sharding`, `ShardingLoads` | the two planning loops that re-assign vnodes to shards; what they come to, counted in the map |
| `ShardingMaster` | the master's add and remove commands over their whole life |
| `Migration`, `MigrationRetry`, `MigrationScan` | the migration protocol, its repetition after a failure, its grouping of moves and its document scan |
| `Merging`, `MergeComparator`, `SearchMerge` | the k-way top list of a distributed search |
| `SequenceMerge` | the generic stable merge of sorted sequences |
| `PageSummary`, `GroupLabels` | splitting a page by worker and filling it again; merging group labels |
| `NumericPropertyTable`, `RTypeColumns`, `ScdDocument`, `IndexWorker` | filter value columns, the document form of an API call, document identity |
| `UpdateBuffer` | the write buffer that is flushed in docid order |
| `DeleteFilter` | the segmented bit filter of deleted documents |
| `PairwiseScdMerger` | merging SCD files in several passes |
| `DirectoryCookie`, `Directories` | the cookie file, guarded sections, copies, crashes, rotation |
| `ScdIndex` | building the SCD index in batches |
| `JobScheduler`, `JobOverlap`, `JobWaits` | the job queue with waits and removals, under all interleavings; overlapping removals; waits that hang |
| `QueryNormalizer` | the normal form of queries |

Code that changes things step by step is modelled by methods and classes with the same loops, proved
against functions and predicates about which the properties are then shown. Protocols with several
threads, processes or crash points (migration, the job queue, directory sections) are state machines
whose steps are single atomic actions.

Findings, stated as lemmas:

* A removal never lacks room for its vnodes as long as every configured shard owns a vnode
  (`Sharding.RemovalFits`), and the two commands keep it that way (`ShardingMaster.Master.AddNewShardingNodes`,
  `ShardingMaster.Master.RemoveShardingNodes`) with one exception: a request may repeat an id so often that a
  shard named behind it gets nothing. `Sharding.NewShardsOwnIff` says exactly when, `ShardingMaster.Starved` is
  such a request, and up to half as many ids as there are vnodes are always safe
  (`ShardingMaster.UsuallySuffices`).
* The table of old shards that `migrateSharding` leaves behind, and that is printed, is right exactly if
  nothing is added or no old shard holds more than the average (`Sharding.LeftoverRightIff`); with the
  average the command computes some shard always does (`Sharding.SomeShardGives`), so every addition
  prints a wrong table.
* A completed migration leaves every document on its new shard and, besides, exactly the source copies whose
  delete request could not be pushed (`Migration.Completed`).
* A migration that is repeated after a failure completes exactly if every copy the failed run left on a
  target is still up to date and every delete is pushed (`MigrationRetry.SecondRunIff`); otherwise an old body
  takes the place of the present one (`MigrationRetry.StaleLeftover`). A failed run can leave something behind
  exactly if documents move to two different shards (`MigrationRetry.LeftoverIff`), and
  `MigrationRetry.StaleExample` is a pair of runs, the first failing and the second completing, after which a
  document is back at its old body.
* Rejecting a directory rewrites its cookie. A cookie torn before its flag is replaced by a valid one,
  so the second attempt accepts the directory (`Directories.TornCookieIsRepaired`). Over any number of attempts
  a directory that died with work in progress is accepted at some time exactly if it died in the write that was
  to mark it invalid, before the flag (`Directories.CrashSafeForever`).
* An rtype update that reaches the buffer while the insertion of the same document is pending loses the
  document (`UpdateBuffer.InsertThenRtypeLoses`); buffered indexing equals immediate indexing exactly
  where this does not happen (`UpdateBuffer.BufferedIsImmediate`).
* An update is taken for one of filter values alone although it has properties that belong in the
  document, and drops them; `IndexWorker.OverridesIff` says exactly when.
* An API value with a DOCID and another spelling of it loses the DOCID when it is converted
  (`ScdDocument.TwoSpellings`); nothing is lost exactly if one key alone reads DOCID
  (`ScdDocument.LosslessIff`). If the spelling that is kept is no property of the collection, the document gets
  no docid and is lost, the version it was to replace included (`IndexWorker.LostIff`,
  `IndexWorker.SpellingLoses`), and its DOCID stays barred until it is destroyed (`IndexWorker.LostStays`).
  The conversion by itself would write past the end of the document if no key read DOCID
  (`ScdDocument.InBoundsIff`), which the hook `requireDOCID` of the API rules out.
* A wait hangs for ever exactly if a removal of its collection takes its notification out of the queue:
  `JobWaits.HangingWait` is such a run, `JobWaits.ForsakenIff` says which runs do so, and
  `JobWaits.ReturnsIff` which pending waits can still return.
* Two removals that replace the worker at once can leave two workers that share one task slot, and then a
  task may start twice (`JobOverlap.TwoRemovalsBreak`). Without such an overlap the queue is safe
  (`JobScheduler.Safety`); every overlap can lead there (`JobOverlap.OverlapBreaks`).
* The comparison of documents is an order exactly if their workers sort by the same properties and by no
  float (`MergeComparator.OrderIff`). Floats within epsilon count as equal, which is not transitive: by floats,
  documents of one schema are ordered exactly if being within epsilon is transitive on the scores at hand
  (`MergeComparator.EpsilonIff`), and the scores 0, epsilon and twice epsilon go round in a circle
  (`MergeComparator.EpsilonCycle`). A worker that lacks the column the others are sorted by is enough for
  another circle (`MergeComparator.MissingColumnCycle`).
* In a batch of the SCD index, a repeated docid keeps its first offset instead of its last
  (`ScdIndex.BuildFlushing`, `ScdIndex.RepeatedDocidDiffers`).

## Model

| member | source | states |
|---|---|---|
| `Sharding.BuildTopology` | source/bundles/index/IndexTaskService.cpp:910-914 | the shard to vnodes table lists every vnode of the map once, under its shard, in ascending order |
| `Sharding.TableAscends` | source/bundles/index/IndexTaskService.cpp:731-735 | every list of the table ascends |
| `Sharding.SplitOff` | source/bundles/index/IndexTaskService.cpp:504-514 | a topology is split into the removed shards and those that stay |
| `Sharding.Drain` | source/bundles/index/IndexTaskService.cpp:521-547 | the inner loop of removal hands the vnodes of one removed shard to the targets behind the cursor, in order, and fails exactly when the targets run out |
| `Sharding.Spread` | source/bundles/index/IndexTaskService.cpp:521-555 | the nested loops of removal place the vnodes of all removed shards or fail, and fail exactly when these do not fit |
| `Sharding.RemoveSharding` | source/bundles/index/IndexTaskService.cpp:497-556 | succeeds exactly on distinct members, fewer than all, whose vnodes fit; then every queued vnode has been placed and the remaining shards come back in order |
| `Sharding.FitsAtEnd` | source/bundles/index/IndexTaskService.cpp:535-547 | the loop that ends with every vnode placed had room for all |
| `Sharding.FitsNot` | source/bundles/index/IndexTaskService.cpp:539-543 | the failure return is taken only when the vnodes do not fit |
| `Sharding.RemovalFits` | source/bundles/index/IndexTaskService.cpp:907-928 | with the rounded-down average as limit, removing distinct members, fewer than all, always finds room: the failure return is unreachable |
| `Sharding.RemovalMoves` | source/bundles/index/IndexTaskService.cpp:521-555 | the migration list is the exact difference of the maps, holds exactly the vnodes of the removed shards, and no vnode stays with or goes to a removed shard |
| `Sharding.RemovalLoads` | source/bundles/index/IndexTaskService.cpp:521-555 | topology and map agree afterwards, every remaining shard keeps what it had and ends with at most max(limit, old load) + 1 vnodes |
| `Sharding.PlaceStep` | source/bundles/index/IndexTaskService.cpp:535-553 | one iteration of either planning loop keeps map, topology and migration list in step |
| `Sharding.ShareSize` | source/bundles/index/IndexTaskService.cpp:535-553 | how much of the queue a target has received: what it takes at each place in the target list that the cursor has passed, and the rest at the cursor |
| `Sharding.ShedTail` | source/bundles/index/IndexTaskService.cpp:575-596 | an old shard gives vnodes from its tail, last first, until only limit + 1 are left or the new shards are full |
| `Sharding.Visit` | source/bundles/index/IndexTaskService.cpp:568-599 | the walk at one old shard: it sheds while a new shard has room and it has more than the limit; others are untouched |
| `Sharding.MigrateSharding` | source/bundles/index/IndexTaskService.cpp:558-601 | new shards are filled in order up to the limit, the walk ends with all of them full or all offers taken, every old shard keeps all or at least limit + 1; each visited list above the limit is left one vnode short in the old table, which is right exactly if nothing is added or no list is above the limit |
| `Sharding.LeftoverRightIff` | source/bundles/index/IndexTaskService.cpp:568-600 | the condition for the old table to be right |
| `Sharding.SomeShardGives` | source/bundles/index/IndexTaskService.cpp:724-748 | with the average of the enlarged cluster some old shard is always above the limit |
| `Sharding.AdditionMoves` | source/bundles/index/IndexTaskService.cpp:558-601 | the migration list is the exact difference of the maps, every vnode in it goes from an old shard to a new one, table and map agree, and new shards are filled in order: those passed hold the limit plus one vnode for each repetition of their id, the one at the cursor fewer, those behind it none |
| `Sharding.PlacedMoves` | source/bundles/index/IndexTaskService.cpp:578-588 | the migration list has one entry per vnode placed |
| `Sharding.AdditionCount` | source/bundles/index/IndexTaskService.cpp:558-601 | an addition moves exactly as many vnodes as there is room for (the limit for each new shard, one for each repeated id) or as old shards have beyond limit + 1, whichever is less |
| `Sharding.AdditionShortfall` | source/bundles/index/IndexTaskService.cpp:724-748 | with the rounded-down average as limit the offer is short of the limit for every new id by at most one vnode per old shard |
| `Sharding.FlatTotal` | source/bundles/index/IndexTaskService.cpp:910-914 | the vnode lists of two complementary groups of shards add up to the whole map |
| `ShardingLoads.AdditionRebalances` | source/bundles/index/IndexTaskService.cpp:558-601 | an addition with limit q, counted in the map: new shards get q vnodes each in the order of the list, and one for every repetition of their id, until the offer ends; every old shard keeps all it had or at least q + 1, exactly so many if the offer ends first or a shard of a larger id gives something, and always its smallest vnodes; vnodes go to the new ids in order, and as many move as there is room for or are offered, whichever is less |
| `ShardingLoads.RemovalCounts` | source/bundles/index/IndexTaskService.cpp:521-555 | a removal with limit q, counted in the map: in ascending order, remaining shards hold q + 1 vnodes, or one more than before if they had more than q, until the vnodes end; these are dealt out in order of shard and number |
| `ShardingLoads.OldLoad` | source/bundles/index/IndexTaskService.cpp:568-596 | an old shard holds, in the new map, exactly the vnodes it keeps |
| `ShardingMaster.RoomyAverage` | source/bundles/index/IndexTaskService.cpp:724-730 | with distinct ids within the shard id range the new average exceeds the number of old shards |
| `Sharding.NewShardsOwnIff` | source/bundles/index/IndexTaskService.cpp:558-601 | after an addition every new shard owns a vnode exactly if the old shards offer more than is taken before the place where the last new shard is first named |
| `ShardingMaster.UsuallySuffices` | source/bundles/index/IndexTaskService.cpp:724-730 | so it is whenever shards and new ids together are at most half as many as the vnodes |
| `ShardingMaster.Starved` | source/bundles/index/IndexTaskService.cpp:724-730 | one shard and 65534 new ids, all but the last the same: the last gets nothing |
| `ShardingMaster.OldShardsOwn` | source/bundles/index/IndexTaskService.cpp:568-599 | after an addition every old shard still owns one |
| `ShardingMaster.PlanAddition` | source/bundles/index/IndexTaskService.cpp:702-752 | the new map comes of the loops with the quotient of all vnodes by old shards and new ids as limit (`AddedByAverage`): which loads, how many moves and in which order; it is consistent with the enlarged configuration, every id taken once, exactly if the vnodes suffice; only vnodes going to new shards change hands |
| `ShardingMaster.PlanRemoval` | source/bundles/index/IndexTaskService.cpp:888-935 | succeeds exactly if no id is repeated; the new map comes of the loops with the quotient of all vnodes by the remaining shards as limit (`RemovedByAverage`), is consistent with them, and only vnodes of removed shards change hands |
| `ShardingMaster.Deal` | source/core/node-manager/sharding/ShardingStrategy.cpp:119-142 | the first map deals the 65535 vnodes to the shards in turn, so that each of at most 255 shards owns one |
| `ShardingMaster.Master.constructor` | source/core/node-manager/sharding/ShardingStrategy.cpp:119-142 | a fresh configuration is consistent |
| `ShardingMaster.EffectiveIs` | source/bundles/index/IndexTaskService.cpp:706-716 | the commands work on the saved map or, for a lone shard without one, on a map that gives it every vnode |
| `ShardingMaster.Master.AddNewShardingNodes` | source/bundles/index/IndexTaskService.cpp:675-769 | succeeds exactly on a non-empty list of new ids, not more than there are vnodes, whose migration succeeds; then the configuration has old and new ids in ascending order and the saved map is the one by the average; both stay consistent exactly if the vnodes suffice, always so with up to 32767 ids; unchanged on failure |
| `ShardingMaster.Master.RemoveShardingNodes` | source/bundles/index/IndexTaskService.cpp:854-943 | succeeds exactly on distinct members, fewer than all, whose migration succeeds; then the configuration has the remaining ids in ascending order and the saved map is the one by the average; removal never lacks room whatever additions and removals came before |
| `Migration.StepKeeps` | source/bundles/index/IndexTaskService.cpp:603-673 | every step of the protocol or of a shard's write queue keeps the invariant about where each copy is |
| `Migration.NothingLost` | source/bundles/index/IndexTaskService.cpp:603-673 | in every state of every run each document is stored somewhere or sits in an insert SCD queued at its target; when shards are added it is always stored |
| `Migration.Completed` | source/bundles/index/IndexTaskService.cpp:655-673 | a completed run saves the new map with every document on the shard that map gives it and, besides, exactly the source copies whose delete request could not be pushed; so documents are nowhere else exactly if there is none |
| `Migration.GoalIs` | source/bundles/index/IndexTaskService.cpp:655-673 | that shard is the one the new map has for the hash of the key, modulo the number of vnodes |
| `Migration.ScdsAre` | source/core/aggregator-manager/IndexWorker.cpp:2275-2314 | the generated SCDs: a document goes to the target its vnode is listed for, and is deleted, exactly if the shard that holds it is the listed source |
| `Migration.CanFinish` | source/bundles/index/IndexTaskService.cpp:603-673 | from every state a run can reach, unless it has failed, it can be completed without a further delete being dropped |
| `Migration.MayKeepSources` | source/bundles/index/IndexTaskService.cpp:663-673 | a run may complete with every source copy still there, because the result of pushing deletes is ignored |
| `Migration.FailedIsHarmless` | source/bundles/index/IndexTaskService.cpp:603-654 | a run that fails leaves the saved map and all source copies as they were, and nothing else but copies on their targets, at most one for a key |
| `MigrationRetry.MirrorRun` | source/bundles/index/IndexTaskService.cpp:603-673 | a run over such leftovers is a run without them, except that each leftover stays and keeps its document's copy out |
| `MigrationRetry.SecondRun` | source/bundles/index/IndexTaskService.cpp:655-673 | what a completed second run leaves: the leftovers, on their new shards the documents that none stands in the way of, and the source copies whose delete could not be pushed |
| `MigrationRetry.SecondRunIff` | source/core/aggregator-manager/IndexWorker.cpp:1471-1501 | it completes the migration exactly if every leftover is the present copy of a document and every delete is pushed |
| `MigrationRetry.StaleLeftover` | source/core/aggregator-manager/IndexWorker.cpp:1471-1501 | over a leftover of a document changed since the failed run, a completed second run leaves the old body and not the present one |
| `MigrationRetry.LeftoverIff` | source/bundles/index/IndexTaskService.cpp:648-654 | a failed run can leave something behind exactly if documents move to two different shards: a push fails only while insert SCDs are left |
| `MigrationRetry.RetryGoesStale` | source/bundles/index/IndexTaskService.cpp:603-673 | whenever documents move to two different shards and one of them changes after the failed run, there are a failing run and a completing second one after which the old body is stored and the present one is not |
| `MigrationRetry.StaleExample` | source/bundles/index/IndexTaskService.cpp:603-673 | such a pair of runs for one shard that gives its two vnodes to two new ones |
| `Migration.RemovalIsSetup` | source/bundles/index/IndexTaskService.cpp:919-935 | what removal plans is a proper input of the protocol: no target gives documents away |
| `Migration.AdditionIsSetup` | source/bundles/index/IndexTaskService.cpp:730-763 | what addition plans is a proper input of the protocol |
| `MigrationScan.GroupMoves` | source/bundles/index/IndexTaskService.cpp:608-624 | the migration list grouped by source and target holds the same moves, each once and in ascending order of vnodes, or the run gives up because a source address is unknown |
| `MigrationScan.GenerateMigrateScd` | source/core/aggregator-manager/IndexWorker.cpp:2228-2324 | the scan of a shard writes each live document into the insert SCD of the target its vnode is listed for and into the delete SCD, in docid order, and leaves out deleted documents |
| `MigrationScan.SelectedAt` | source/core/aggregator-manager/IndexWorker.cpp:2259-2314 | each selected document stands in the insert SCD of its target behind as many as come before it by docid |
| `MigrationScan.LeavingAt` | source/core/aggregator-manager/IndexWorker.cpp:2259-2314 | so does every leaving document in the delete SCD |
| `MigrationScan.FindShard` | source/core/aggregator-manager/IndexWorker.cpp:2275-2291 | the target of a vnode is the smallest shard whose list has it, 0 if none has |
| `MigrationScan.RouteIsMove` | source/core/aggregator-manager/IndexWorker.cpp:2275-2291 | with the planned lists a document goes exactly to the target its vnode moves to |
| `MigrationScan.ScanIsProtocol` | source/core/aggregator-manager/IndexWorker.cpp:2259-2314 | the SCDs generated by one source are its exact share of what the protocol starts from |
| `Merging.MergedIsPrefix` | source/core/aggregator-manager/SearchMerger.cpp:300-386 | whatever a k-way merge has put out is a prefix of the one sorted union |
| `Merging.SomeLeft` | source/core/aggregator-manager/SearchMerger.cpp:336-367 | as long as fewer elements than there are have gone out, some list is not exhausted |
| `Merging.BestStep` | source/core/aggregator-manager/SearchMerger.cpp:340-361 | looking at one more worker keeps the best head so far |
| `MergeComparator.GreaterThan` | source/core/aggregator-manager/MergeComparator.cpp:126-179 | the loop over sort properties decides by the first property of equal type that does not tie, floats tying within epsilon, then by the newer docid |
| `MergeComparator.FirstDecides` | source/core/aggregator-manager/MergeComparator.cpp:129-176 | the first property of equal type whose values do not tie decides by the direction of its sort |
| `MergeComparator.NewerDecides` | source/core/aggregator-manager/MergeComparator.cpp:178 | if there is none, the newer document comes first |
| `MergeComparator.TiesIff` | source/core/aggregator-manager/MergeComparator.cpp:145-172 | numbers and texts tie if equal, floats if no further apart than 2 to the -23 |
| `MergeComparator.WinsIff` | source/core/aggregator-manager/MergeComparator.cpp:145-172 | the larger value wins, in reverse the smaller one |
| `Orders.TextLessIff` | source/core/aggregator-manager/MergeComparator.cpp:166-172 | texts compare lexicographically |
| `MergeComparator.GreaterTotal` | source/core/aggregator-manager/MergeComparator.cpp:126-179 | with one schema exactly one of two different documents outranks the other |
| `MergeComparator.GreaterTrans` | source/core/aggregator-manager/MergeComparator.cpp:126-179 | with one schema outranking is transitive on three documents whose float values tie transitively |
| `MergeComparator.OrderIff` | source/core/aggregator-manager/MergeComparator.cpp:126-179 | the comparison is total and transitive on all documents of two sort schemas exactly if these are the same and have no float property |
| `MergeComparator.EpsilonIff` | source/core/aggregator-manager/MergeComparator.cpp:158-164 | on the documents of one schema whose float values are among given scores it is transitive exactly if no property is a float or being within epsilon is transitive on these scores |
| `MergeComparator.EpsilonCycle` | source/core/aggregator-manager/MergeComparator.cpp:158-164 | documents with scores 0, epsilon and twice epsilon outrank each other in a circle |
| `MergeComparator.TypesCircle` | source/core/aggregator-manager/MergeComparator.cpp:129-144 | where one schema has a property and the other none or one of another type, three documents outrank each other in a circle |
| `MergeComparator.DirectionsClash` | source/core/aggregator-manager/MergeComparator.cpp:145-172 | where the direction differs, two documents outrank each other |
| `MergeComparator.MissingColumnCycle` | source/core/aggregator-manager/MergeComparator.cpp:106-117 | the smallest circle: three documents, one of a worker without the column |
| `SearchMerge.OutranksIsOrder` | source/core/aggregator-manager/MergeComparator.cpp:126-179 | on sound answers the comparison is a strict total order of all documents of all workers |
| `SearchMerge.PickHead` | source/core/aggregator-manager/SearchMerger.cpp:338-361 | the inner loop finds the worker whose head outranks all other heads, or that all are exhausted |
| `SearchMerge.TopCount` | source/core/aggregator-manager/SearchMerger.cpp:300-305 | never more than the total nor than `TOP_K_NUM` |
| `SearchMerge.TopCountIs` | source/core/aggregator-manager/SearchMerger.cpp:300-305 | how many documents are merged: the places of all answers together that lie in the same stretch of `TOP_K_NUM` places as the start |
| `SearchMerge.MergeTop` | source/core/aggregator-manager/SearchMerger.cpp:336-386 | the outer loop merges exactly the wanted number; its break for exhausted workers is never taken |
| `SearchMerge.MergedIsTop` | source/core/aggregator-manager/SearchMerger.cpp:300-386 | the merged documents are the first of the sorted union of all answers, and ids, workers and all score arrays tell of the same documents |
| `SearchMerge.TopMeans` | source/core/aggregator-manager/SearchMerger.cpp:336-386 | document by document: ids, workers and scores are those of the worker at the offset, each merged document outranks the next and every document that was not merged |
| `SearchMerge.MergedAllIsUnion` | source/core/aggregator-manager/SearchMerger.cpp:300-386 | merging everything gives the sorted union |
| `SearchMerge.TopKeepsOrder` | source/core/aggregator-manager/SearchMerger.cpp:336-386 | no document of a worker is used twice and each worker's documents come out from its first on, in its order |
| `SearchMerge.GetDistSearchResult` | source/core/aggregator-manager/SearchMerger.cpp:176-390 | success exactly if there are workers and none reports an error, else the first error; one worker's answer is passed on whole; several are merged to the top of their union, as many as there are places in the stretch of `TOP_K_NUM` places that holds the start |
| `SequenceMerge.MinElement` | source/core/aggregator-manager/SequenceMerger.h:127-134 | the sequence with the first of the smallest heads |
| `SequenceMerge.MergeAll` | source/core/aggregator-manager/SequenceMerger.h:121-149 | the loop that advances and erases sequences puts out the stable sort |
| `SequenceMerge.StableIsOrder` | source/core/aggregator-manager/SequenceMerger.h:121-149 | ties broken by order of addition and place turn any strict weak order into a total one |
| `SequenceMerge.UnionIsStableSort` | source/core/aggregator-manager/SequenceMerger.h:121-149 | the sorted union under that order is the stable sort of the concatenation |
| `SequenceMerge.SequenceMerger.AddSequence` | source/core/aggregator-manager/SequenceMerger.h:98-104 | a sequence is added at the end unless it is empty |
| `SequenceMerge.SequenceMerger.Merge` | source/core/aggregator-manager/SequenceMerger.h:106-149 | for any strict weak order the output is the stable sort of the added sequences laid end to end, and none is left |
| `PageSummary.SplitSearchResult` | source/core/aggregator-manager/SearchMerger.cpp:655-693 | place i of the page is document number start modulo `TOP_K_NUM` plus i of the result, as long as i is below the count and there is such a document; every worker gets, in ascending order, exactly the places whose document is its own, with these documents |
| `PageSummary.FindWorker` | source/core/aggregator-manager/SearchMerger.cpp:512-525 | finds the worker whose cursor stands at a page place, if any |
| `PageSummary.WorkerFound` | source/core/aggregator-manager/SearchMerger.cpp:509-544 | for a place on the page that is the worker of its document, whatever the order of the answers |
| `PageSummary.FillPage` | source/core/aggregator-manager/SearchMerger.cpp:509-544 | slot i of every property holds what the worker of page document i answers for it |
| `PageSummary.GetSummaryResult` | source/core/aggregator-manager/SearchMerger.cpp:458-546 | success exactly if somebody answered and nobody reports an error; then slot i of every property holds what the worker of page document i answers for it, and the slots behind the page are empty |
| `GroupLabels.BestIsUnique` | source/core/aggregator-manager/SearchMerger.cpp:18-33 | two lists with the best info of every offered path hold the same labels |
| `GroupLabels.OfferStep` | source/core/aggregator-manager/SearchMerger.cpp:95-117 | an offer replaces the info of the first label of its path exactly if it is better, or opens a new path; then the list covers it besides all earlier offers, and repeats paths exactly if it did before |
| `GroupLabels.SortLabels` | source/core/aggregator-manager/SearchMerger.cpp:119 | the same labels, counted, in descending order |
| `GroupLabels.MergeList` | source/core/aggregator-manager/SearchMerger.cpp:81-119 | joining a worker's labels of one property keeps, for every offered path, a label that no offer beats |
| `GroupLabels.MergeScoreGroupLabel` | source/core/aggregator-manager/SearchMerger.cpp:74-121 | merging one more worker keeps, for every property, labels that no offer of their path beats, sorted, each path once exactly if the first worker that has the property names each once |
| `GroupLabels.MergedIsBest` | source/core/aggregator-manager/SearchMerger.cpp:74-121 | the merged list has the best label of every path, and is each path once with its best info exactly if the first worker that has the property names no path twice |
| `GroupLabels.MergedScores` | source/core/aggregator-manager/SearchMerger.cpp:18-33 | by scores: the merged list descends, newer documents first among equal scores, and every offer has a label of its path with a score at least as high |
| `GroupLabels.OfferIs` | source/core/aggregator-manager/SearchMerger.cpp:81-100 | what is offered are the workers' labels, each tagged with its worker |
| `GroupLabels.MergeAllLabels` | source/core/aggregator-manager/SearchMerger.cpp:74-121 | the fold over all workers does |
| `GroupLabels.OrderIrrelevant` | source/core/aggregator-manager/SearchMerger.cpp:74-121 | the order of the workers changes neither the properties nor the best labels, nor any label unless the first worker repeats a path |
| `NumericPropertyTable.NumericPropertyTable.Resize` | source/core/common/NumericPropertyTable.h:97-101 | growing a column gives no document a value |
| `NumericPropertyTable.NumericPropertyTable.SetValue` | source/core/common/NumericPropertyTable.h:319-331 | one document gets the value (none if it is the reserved one), all others keep theirs |
| `NumericPropertyTable.NumericPropertyTable.SetStringValue` | source/core/common/NumericPropertyTable.h:297-317 | true exactly for a readable text; an unreadable one changes no value though the column grows |
| `NumericPropertyTable.NumericPropertyTable.CopyValue` | source/core/common/NumericPropertyTable.h:333-344 | the target takes over an existing value and otherwise keeps its own |
| `NumericPropertyTable.NumericPropertyTable.ClearValue` | source/core/common/NumericPropertyTable.h:358-366 | one document loses its value |
| `NumericPropertyTable.NumericPropertyTable.GetMinValue` | source/core/common/NumericPropertyTable.h:192-204 | the least value any document has, none exactly if no document has one |
| `NumericPropertyTable.NumericPropertyTable.GetMaxValue` | source/core/common/NumericPropertyTable.h:206-218 | the greatest value any document has, none exactly if no document has one |
| `RTypeColumns.RTypeTables.MoveRTypeValues` | source/core/document-manager/DocumentManager.cpp:881-893 | the new docid takes over every number and string value of the old one; no other docid changes |
| `RTypeColumns.RTypeStringPropTable.UpdateRTypeString` | source/core/common/RTypeStringPropTable.h:146-171 | one document gets the text; an empty text is refused and changes nothing |
| `RTypeColumns.RTypeStringPropTable.CopyValue` | source/core/common/RTypeStringPropTable.h:173-181 | the target takes over an existing text and otherwise keeps its own |
| `ScdDocument.InBoundsIff` | source/core/aggregator-manager/IndexWorker.cpp:2165-2185 | taken by itself, the conversion writes inside the document exactly if some key reads DOCID or there is no key at all |
| `ScdDocument.Value2SCDDoc` | source/core/aggregator-manager/IndexWorker.cpp:2165-2185 | the result is the last DOCID, the other properties in order, then empty slots |
| `ScdDocument.ArrangedAt` | source/core/aggregator-manager/IndexWorker.cpp:2165-2185 | place by place: the last DOCID first, every other property behind as many as precede it, then blanks |
| `ScdDocument.IsDocidIff` | source/core/aggregator-manager/IndexWorker.cpp:2177 | DOCID is recognized letter by letter in either case |
| `ScdDocument.LosslessIff` | source/core/aggregator-manager/IndexWorker.cpp:2165-2185 | every property is kept exactly if one key alone reads DOCID; then the DOCID comes first |
| `ScdDocument.TwoSpellings` | source/core/aggregator-manager/IndexWorker.cpp:2165-2185 | of a DOCID and another spelling of it only the latter is kept |
| `IndexWorker.CheckUpdateType` | source/core/aggregator-manager/IndexWorker.cpp:2097-2133 | an update is general exactly if it supplies a property of the schema that is not empty, no spelling of DOCID and no rtype text, and is not indexed, or analyzed, or no filter number |
| `IndexWorker.RowAround` | source/core/aggregator-manager/IndexWorker.cpp:1888-1999 | filter values given before the DOCID lose against those of the old version, those behind it win |
| `IndexWorker.RowCarried` | source/core/aggregator-manager/IndexWorker.cpp:1888-1999 | behind a leading DOCID each filter value is the supplied one if it can be read, else the old one |
| `IndexWorker.NewVersionValues` | source/core/aggregator-manager/IndexWorker.cpp:1896-1904 | the values of a new docid are the supplied readable ones, else the old ones if the DOCID is a property of the collection, which alone brings them along; those of a docid updated in place are the supplied readable ones, else the old ones |
| `IndexWorker.NumberSupplied` | source/core/aggregator-manager/IndexWorker.cpp:1949-1968 | a number column gets the number read last, or no value if that is the reserved one |
| `IndexWorker.TextSupplied` | source/core/aggregator-manager/IndexWorker.cpp:1930-1943 | a string column gets the last text that is not empty |
| `IndexWorker.ValueKept` | source/core/aggregator-manager/IndexWorker.cpp:1888-1999 | a column for which nothing can be read keeps its value, in a new version exactly if the DOCID is a property of the collection |
| `IndexWorker.OneLiveVersion` | source/core/aggregator-manager/IndexWorker.cpp:1471-1501 | no DOCID ever has two documents under docids of their own that are not deleted |
| `IndexWorker.CreateRefines` | source/core/aggregator-manager/IndexWorker.cpp:748-810 | creation on the stores is creation on the map from DOCID to (properties or lost, values, live or destroyed): nothing changes for a live DOCID, otherwise the document starts afresh, and is lost if its DOCID is no property of the collection |
| `IndexWorker.UpdateRefines` | source/core/aggregator-manager/IndexWorker.cpp:865-955 | so is an update: unknown DOCIDs and value updates of destroyed documents are refused, a general update overrides the old properties and brings a destroyed document back, loses it if its DOCID is no property of the collection, and fails if it is lost already |
| `IndexWorker.DestroyRefines` | source/core/aggregator-manager/IndexWorker.cpp:1092-1165 | so is destruction |
| `IndexWorker.StepRefines` | source/core/aggregator-manager/IndexWorker.cpp:748-1165 | every call keeps the invariant that the live stored docids are among those the id table names, and refines the map |
| `IndexWorker.RunRefines` | source/core/aggregator-manager/IndexWorker.cpp:748-1165 | every run of calls answers and ends as the map does |
| `IndexWorker.RunPreserves` | source/core/aggregator-manager/IndexWorker.cpp:1471-1501 | over any run no deleted docid comes back and no stored document changes under its docid |
| `IndexWorker.OverridesIff` | source/core/aggregator-manager/IndexWorker.cpp:2076-2134 | an update leaves every document as it was overridden by the supplied properties exactly if it is general and its DOCID a property of the collection, or supplies filter values alone |
| `IndexWorker.MultiValueDropped` | source/core/aggregator-manager/IndexWorker.cpp:1949-1968 | a multi-valued filter number is dropped when it comes alone |
| `IndexWorker.LostIff` | source/core/aggregator-manager/IndexWorker.cpp:1886-1904 | a creation loses the document exactly if the last spelling of DOCID in the value is no property of the collection, an update of a stored document exactly if besides it is general |
| `IndexWorker.SpellingLoses` | source/core/aggregator-manager/IndexWorker.cpp:1886-1904 | the smallest update that does: DOCID, another spelling and one property that makes it general |
| `IndexWorker.LostStays` | source/core/aggregator-manager/IndexWorker.cpp:748-955 | over any run without a destruction of it a lost document stays lost, and its DOCID cannot be created |
| `IndexWorker.IndexWorker.PrepareDocument` | source/core/aggregator-manager/IndexWorker.cpp:1863-2000 | the document holds a property exactly if it is supplied, in the schema, and a spelling of DOCID, a subdocument, a text that is analyzed or no rtype, or a number that is not filtered by or has several values, with the text supplied last; the filter values of the intended docid alone are written; the document bears that docid exactly if its DOCID is a property of the collection |
| `IndexWorker.IndexWorker.InsertDoc` | source/core/aggregator-manager/IndexWorker.cpp:1471-1501 | a first version goes under a fresh docid, larger than all before, or under 0 if it bears none |
| `IndexWorker.IndexWorker.UpdateGeneral` | source/core/aggregator-manager/IndexWorker.cpp:1676-1706 | a new version goes under a fresh docid, with the properties of the old one overridden, and the old one is deleted; if the old one is not stored it fails and leaves documents and deletions alone |
| `IndexWorker.IndexWorker.UpdateRType` | source/core/aggregator-manager/IndexWorker.cpp:1707-1720 | a value update changes the columns of one docid and no document |
| `IndexWorker.IndexWorker.CreateDocument` | source/core/aggregator-manager/IndexWorker.cpp:748-810 | succeeds exactly if the DOCID is unknown or its document destroyed; then a fresh docid stands for it with the supplied properties; otherwise nothing changes; keeps the invariant |
| `IndexWorker.IndexWorker.UpdateDocument` | source/core/aggregator-manager/IndexWorker.cpp:865-955 | a general update succeeds exactly if the old version is stored, deletes it and stores its properties, overridden by the supplied ones, under a fresh docid; any other succeeds exactly on a document that is not deleted and changes no store of documents; keeps the invariant |
| `IndexWorker.IndexWorker.DestroyDocument` | source/core/aggregator-manager/IndexWorker.cpp:1092-1165 | succeeds exactly on a known document that is not deleted, and deletes its docid; keeps the invariant |
| `UpdateBuffer.FreshLast` | source/core/aggregator-manager/IndexWorker.cpp:1649-1671 | an update under a fresh docid is the last one the flush applies |
| `UpdateBuffer.NewVersionHas` | source/core/aggregator-manager/IndexWorker.cpp:1686-1704 | applying a general update: the new version has what the update supplies and otherwise what the old one had, the old one is deleted, nothing else changes |
| `UpdateBuffer.Commute` | source/core/aggregator-manager/IndexWorker.cpp:1686-1704 | two updates of different documents may be swapped if neither is the source of the other |
| `UpdateBuffer.EqualStep` | source/core/aggregator-manager/IndexWorker.cpp:1627-1674 | one operation that loses nothing keeps the flushed buffer equal to immediate application, chains of pending versions included |
| `UpdateBuffer.BufferedIsImmediate` | source/core/aggregator-manager/IndexWorker.cpp:1722-1798 | for fresh ascending docids and flushes anywhere, the documents and deletions after the last flush equal those of immediate application exactly if no rtype update hits a pending insertion or a pending version of a pending document |
| `UpdateBuffer.InsertThenRtypeLoses` | source/core/aggregator-manager/IndexWorker.cpp:1655-1661 | inserting a document and updating an rtype value of it before the flush leaves nothing of it |
| `UpdateBuffer.FillIsRun` | source/core/aggregator-manager/IndexWorker.cpp:1665-1671 | an arrival, with the flush of a full buffer, is a run of operations |
| `UpdateBuffer.FillBuffer` | source/core/aggregator-manager/IndexWorker.cpp:1665-1671 | with fewer than 8192 entries an arrival is kept, with 8192 the buffer is emptied |
| `UpdateBuffer.Worker.InsertDoc` | source/core/aggregator-manager/IndexWorker.cpp:1595-1605 | an insertion takes the place of whatever is pending under its docid; a full buffer is flushed |
| `UpdateBuffer.Worker.UpdateDoc` | source/core/aggregator-manager/IndexWorker.cpp:1627-1674 | a pending update under the docid is applied before it is replaced; a full buffer is flushed |
| `UpdateBuffer.Worker.DoUpdateDoc` | source/core/aggregator-manager/IndexWorker.cpp:1676-1720 | a general update merges, property by property, deletes and inserts if the old version is stored; otherwise, and for insertions and rtype updates, nothing changes |
| `UpdateBuffer.Worker.FlushUpdateBuffer` | source/core/aggregator-manager/IndexWorker.cpp:1722-1798 | all pending updates are applied in ascending docid order and the buffer is emptied |
| `DeleteFilter.Address` | source/core/document-manager/DocumentManager.cpp:209-239 | every 32-bit docid has a segment below 32 and is recovered from segment and offset |
| `DeleteFilter.MarkedAt` | source/core/document-manager/DocumentManager.cpp:209-239 | the bit of a docid is number (docid - 1) modulo 2^27 of segment (docid - 1) / 2^27 |
| `DeleteFilter.ListDeleted` | source/core/document-manager/DocumentManager.cpp:382-399 | the nested search loops list the whole set in strictly ascending order |
| `DeleteFilter.BitsOfBlocks` | source/core/document-manager/DocumentManager.cpp:401-443 | packing a segment into 32-bit blocks and unpacking it gives it back |
| `DeleteFilter.PackBit` | source/core/document-manager/DocumentManager.cpp:421-443 | bit i of a saved block is bit i of its 32 bits |
| `DeleteFilter.BlockAt` | source/core/document-manager/DocumentManager.cpp:421-443 | block b of a segment is made of its bits from number 32 b on |
| `DeleteFilter.SaveDelFilter` | source/core/document-manager/DocumentManager.cpp:421-443 | the file holds the allocated segments block by block |
| `DeleteFilter.LoadDelFilter` | source/core/document-manager/DocumentManager.cpp:401-419 | loading what was saved restores every segment |
| `DeleteFilter.DelFilter.IsDeleted` | source/core/document-manager/DocumentManager.cpp:209-218 | true exactly for docids in the set |
| `DeleteFilter.DelFilter.RemoveDocument` | source/core/document-manager/DocumentManager.cpp:220-239 | true exactly if the docid is not 0 and was not yet deleted; the set grows by it, allocated segments stay a prefix, and a count equal to the set size stays so |
| `DeleteFilter.DelFilter.GetDeletedDocIdList` | source/core/document-manager/DocumentManager.cpp:382-399 | the strictly ascending enumeration of the set |
| `DeleteFilter.DelFilter.Restart` | source/core/document-manager/DocumentManager.cpp:401-443 | saving and loading keep the set but not the count |
| `PairwiseScdMerger.ExistingPasses` | source/core/common/PairwiseScdMerger.h:244-257 | in a pass, existing records of other ids are passed on and none is put out as NEW |
| `PairwiseScdMerger.ExistingFolds` | source/core/common/PairwiseScdMerger.h:244-257 | in a pass, existing records of new ids are folded into the cache |
| `PairwiseScdMerger.IncomingFolds` | source/core/common/PairwiseScdMerger.h:259-271 | in a pass, new records are folded into the cache and nothing is put out |
| `PairwiseScdMerger.IncomingPasses` | source/core/common/PairwiseScdMerger.h:259-271 | without existing files every new record is passed on as it is |
| `PairwiseScdMerger.AllPasses` | source/core/common/PairwiseScdMerger.h:137-228 | all passes together give every existing record whose id is not new plus one record per new id, for any number of passes |
| `PairwiseScdMerger.InsertForgets` | source/core/common/PairwiseScdMerger.h:299-327 | records before the last INSERT of an id do not affect its result |
| `PairwiseScdMerger.FoldIsHistory` | source/core/common/PairwiseScdMerger.h:299-327 | what the records of an id come to: every property as the last record has it that supplies it since the last INSERT, no other property, and the type INSERT if one came and no DELETE after it, else the type of the last record |
| `PairwiseScdMerger.NewIdsOnce` | source/core/common/PairwiseScdMerger.h:119-230 | with existing files a run writes exactly one record for every new id, which is what the existing and then the new records of the id come to |
| `PairwiseScdMerger.OthersAsTheyAre` | source/core/common/PairwiseScdMerger.h:244-271 | every other existing record is written as often as it is there; without existing files every new one is |
| `PairwiseScdMerger.RecordAt` | source/core/common/PairwiseScdMerger.h:137-228 | the records are those of the files, file after file, each of the type its file has |
| `PairwiseScdMerger.Merger.Scan` | source/core/common/PairwiseScdMerger.h:171-198 | one scan over all files handles exactly the documents of the residue class |
| `PairwiseScdMerger.Merger.MEnd` | source/core/common/PairwiseScdMerger.h:273-285 | the whole cache goes out once, and is empty afterwards |
| `PairwiseScdMerger.Merger.Pass` | source/core/common/PairwiseScdMerger.h:137-228 | what one pass writes |
| `PairwiseScdMerger.Merger.Run` | source/core/common/PairwiseScdMerger.h:119-230 | the bag of records written does not depend on the number of passes, and with existing files no record is put out as NEW |
| `DirectoryCookie.DecimalParse` | source/core/directory-manager/DirectoryCookie.cpp:37-95 | a written update time reads back |
| `DirectoryCookie.CutLines` | source/core/directory-manager/DirectoryCookie.cpp:37-82 | a cut cookie has four lines only if the cut falls into its flag |
| `DirectoryCookie.RoundTrip` | source/core/directory-manager/DirectoryCookie.cpp:37-95 | a written cookie reads back |
| `DirectoryCookie.CookieText` | source/core/directory-manager/DirectoryCookie.cpp:84-95 | the file is the four lines DCMG, time, parent, and true or false |
| `DirectoryCookie.TornCookie` | source/core/directory-manager/DirectoryCookie.cpp:37-95 | reading any prefix of a written cookie fails or gives the whole cookie |
| `Directories.Directory.constructor` | source/core/directory-manager/Directory.cpp:28-45 | a new directory is valid and its cookie says so |
| `Directories.Directory.CopyFrom` | source/core/directory-manager/Directory.cpp:165-194 | only a valid directory is copied; the copy is one second older than its source |
| `Directories.DirectoryGuard.constructor` | source/core/directory-manager/Directory.cpp:196-206 | a guard is good exactly on a valid directory, which it marks invalid |
| `Directories.DirectoryGuard.Leave` | source/core/directory-manager/Directory.cpp:208-216 | only a good guard marks the directory valid again |
| `Directories.StepKeeps` | source/core/directory-manager/Directory.cpp:165-216 | every step, down to single characters of a cookie write, keeps what is on disk in line with what is in progress |
| `Directories.StepIff` | source/core/directory-manager/Directory.cpp:165-216 | exactly when each step can be taken |
| `Directories.CanSettle` | source/core/directory-manager/Directory.cpp:165-216 | whatever is open on a directory can be closed, and a section or copy in progress then leaves it valid |
| `Directories.CrashSafe` | source/core/directory-manager/Directory.cpp:47-64 | whenever the process dies, the directory is accepted again only if no guarded section and no copy was in progress |
| `Directories.NestedGuardIsInert` | source/core/directory-manager/Directory.cpp:196-216 | guards inside a section never revalidate the directory |
| `Directories.StaysRejected` | source/core/directory-manager/Directory.cpp:47-64 | a directory that died in the middle of its work, the cookie that marks it invalid written out, stays rejected however often it is opened |
| `Directories.TornCookieIsRepaired` | source/core/directory-manager/Directory.cpp:91-100 | a torn cookie is rejected once; the second attempt accepts the directory exactly if the cut lay before the flag |
| `Directories.EverAcceptedIff` | source/core/directory-manager/Directory.cpp:47-64 | over any number of attempts, a cookie cut anywhere is accepted at some time exactly if it is cut before the flag, or says valid and lacks at most its last character |
| `Directories.CrashSafeForever` | source/core/directory-manager/Directory.cpp:47-64 | a directory that died with a section or a copy in progress is accepted at some attempt exactly if it died in the write that was to mark it invalid, before the flag; one that died idle exactly if it was valid |
| `Directories.DirectoryRotator.AppendDirectory` | source/core/directory-manager/DirectoryRotator.cpp:24-42 | a usable directory is appended unless the rotator is full |
| `Directories.RotationsCycle` | source/core/directory-manager/DirectoryRotator.cpp:66-72 | rotating makes each directory current once, in order, and as many rotations as there are directories change nothing |
| `Directories.DirectoryRotator.RotateToNewest` | source/core/directory-manager/DirectoryRotator.cpp:74-85 | the first of the newest directories becomes current and the cyclic order stays |
| `Directories.SourcePreferred` | source/core/directory-manager/DirectoryRotator.cpp:74-93 | a fresh copy is never preferred to its source |
| `ScdIndex.Index.InsertProperty` | source/core/common/ScdIndexLeveldb.h:149-154 | offsets are appended to those stored for the property |
| `ScdIndex.Index.InsertDocument` | source/core/common/ScdIndexLeveldb.h:132-146 | direct insertion into both tables |
| `ScdIndex.Index.InsertBatch` | source/core/common/ScdIndexLeveldb.h:157-161 | buffering keeps the first offset of a docid and all offsets of a property |
| `ScdIndex.Index.Flush` | source/core/common/ScdIndexLeveldb.h:191-208 | empties the buffers and changes nothing of what tables and buffers say together |
| `ScdIndex.BuildDirectly` | source/core/common/ScdIndexLeveldb.h:132-146 | the tables of direct insertion |
| `ScdIndex.DirectDocid` | source/core/common/ScdIndexLeveldb.h:132-146 | a docid has the offset of its last document |
| `ScdIndex.DirectOffsets` | source/core/common/ScdIndexLeveldb.h:132-154 | a property has the offsets of all its documents, each behind those before it |
| `ScdIndex.BuildFlushing` | source/core/common/ScdIndexLeveldb.h:157-208 | for any placement of flushes the property table is that of direct insertion, and the docid table is exactly if no docid's last document came while an earlier one of it was buffered |
| `ScdIndex.Build` | source/core/common/ScdIndex.h:98-121 | with unique docids, flushing every so many documents gives the tables of direct insertion |
| `ScdIndex.RepeatedDocidDiffers` | source/core/common/ScdIndexLeveldb.h:157-161 | the smallest case: of two documents with one docid and no flush between them the buffer holds the first offset, direct insertion the second |
| `JobScheduler.AliveStep` | source/core/common/JobScheduler.cpp:79-97 | every step keeps all workers but the last stopped |
| `JobScheduler.FatesStep` | source/core/common/JobScheduler.cpp:27-97 | after every step each task ever queued is exactly one of queued, in hand, ended, removed |
| `JobScheduler.OrderStep` | source/core/common/JobScheduler.cpp:79-97 | after every step tasks have started in queue order, each at most once |
| `JobScheduler.HeldIsNext` | source/core/common/JobScheduler.cpp:79-97 | when a task is in hand, all tasks queued before it have ended or been removed |
| `JobScheduler.EventsStep` | source/core/common/JobScheduler.cpp:27-49 | an event is raised only by the notification of its own wait, when everything before it is gone |
| `JobScheduler.RemovalsStep` | source/core/common/JobScheduler.cpp:51-66 | what finished removals promised stays true, and the worker is down only while a removal has it so |
| `JobScheduler.Safety` | source/core/common/JobScheduler.cpp:27-97 | over all interleavings in which no two removals replace the worker at once: one worker at most is alive; tasks start at most once and in order; a finished wait has seen off all tasks queued before it; after a removal no task of the collection queued before it is queued or running |
| `JobOverlap.OverlapBreaks` | source/core/common/JobScheduler.cpp:56-65 | the condition is exact: once a second removal is behind the failed check, a run may follow that starts a task twice |
| `JobOverlap.SharedSlot` | source/core/common/JobScheduler.cpp:79-91 | two workers that pop one after the other both run the task popped last |
| `JobOverlap.TwoRemovalsBreak` | source/core/common/JobScheduler.cpp:51-66 | a run from the start in which removals of two collections overlap and a task starts twice |
| `JobWaits.ForsakenStep` | source/core/common/JobScheduler.cpp:51-66 | a step forsakes a wait exactly if it sweeps the collection of its queued notification, before the check or after the join |
| `JobWaits.ForsakenIff` | source/core/common/JobScheduler.cpp:51-66 | so does a run exactly if one of its steps does |
| `JobWaits.HangingWait` | source/core/common/JobScheduler.cpp:34-66 | a run from the start that forsakes a wait |
| `JobWaits.CanReturn` | source/core/common/JobScheduler.cpp:34-49 | a pending wait whose notification is neither removed nor bound to be has a continuation that returns |
| `JobWaits.LostForever` | source/core/common/JobScheduler.cpp:34-66 | a wait whose notification is removed or bound to be never returns |
| `JobWaits.ReturnsIff` | source/core/common/JobScheduler.cpp:34-66 | a pending wait can return exactly if its notification is not removed and not bound to be: the worker going down for a removal of its collection before it can pop it |
| `QueryNormalizer.TokensAreRuns` | source/core/common/QueryNormalizer.cpp:69-93 | the tokens of any query are its maximal runs of non-space characters, lowered, all of them and in order |
| `QueryNormalizer.IsSpaceIff` | source/core/common/QueryNormalizer.cpp:69-93 | spaces are the blank and the control characters 9 to 13 |
| `QueryNormalizer.TokenizeQuery` | source/core/common/QueryNormalizer.cpp:69-93 | the loop yields these tokens |
| `QueryNormalizer.MergeTokens` | source/core/common/QueryNormalizer.cpp:50-65 | the tokens with single spaces between them |
| `QueryNormalizer.JoinedAt` | source/core/common/QueryNormalizer.cpp:50-65 | every token but the first follows what comes before it after one space |
| `QueryNormalizer.JoinedSize` | source/core/common/QueryNormalizer.cpp:50-65 | there is nothing else in the text |
| `QueryNormalizer.TokensOfJoined` | source/core/common/QueryNormalizer.cpp:50-93 | tokenizing undoes merging on non-empty, space-free, lower-case tokens |
| `QueryNormalizer.Normalize` | source/core/common/QueryNormalizer.cpp:134-143 | the tokens in ascending order, merged |
| `QueryNormalizer.Canonical` | source/core/common/QueryNormalizer.cpp:134-143 | two queries have the same normal form exactly if their lowered tokens agree, counted |
| `QueryNormalizer.Idempotent` | source/core/common/QueryNormalizer.cpp:134-143 | normalizing a normal form changes nothing |

## Left out

- PlanAddition: requires ids within 1..255, as the controller of the API checks (source/process/controllers/CollectionController.cpp:541-546), and what the guards of the command have checked before; repeated ids are taken as they come and folded into one when the configuration is parsed again (source/process/common/XmlConfigParser.cpp:1257-1287).
- MigrateSharding: requires new ids that are not in the topology, which the command checks before the call.
- AddNewShardingNodes: the outcome of the migration is a parameter, and both commands run one at a time. Once a shard without vnodes is configured the class is no longer consistent, and what removals do then is left out.
- Migration.StepKeeps: writes are frozen during the migration, as the source intends; writes that arrive between the scan and the draining of the queues are not modelled. There is one shard per source address, and a wait for a shard's queue returns only when the queue is empty.
- GenerateMigrateScd: the sharding hash is a parameter; SCD files are the sequences of documents they hold, and the numbering of the files is not part of this model.
- GreaterThan: columns of doubles, which the source tags as floats and then reads as such, are left out, and float arithmetic is exact apart from the epsilon.
- GetDistSearchResult: several answers must be sorted, share one sort schema as far as they hold documents, have float values on which being within epsilon is transitive, and hold no document twice. Counts, group and attribute trees, spell checks, the emptying of major tokens and the branch that merges summaries at once are left out.
- GetSummaryResult: one table of texts per displayed property stands for full, snippet and raw texts.
- MergeScoreGroupLabel: scores are compared exactly, while `IsGreaterGPScoreInfo` (source/core/aggregator-manager/SearchMerger.cpp:18-27) lets scores within epsilon tie.
- SequenceMerge.SequenceMerger.Merge: the sequences must be sorted by the comparison, as the documentation of the class asks.
- SetStringValue: numbers are unbounded integers and their texts are read by a parameter; floats, the range tables for pairs of values, the copy of the string tables in memory and locks are left out.
- CompareValues of a column, which reads without a bounds check, and saving columns to files.
- CreateDocument: an API value is a list of properties with different names, one of them DOCID, in the order in which the source walks them. Different DOCIDs have different hashes, and a document object bears docid 0 until it is given another (its class is not part of the repository). Hooks, mining, caches, request logs and failures of storage are left out.
- IndexWorker over SCD files: the batch path uses the same id handling and is modelled only as far as the update buffer; its reader and its threads are left out.
- UpdateDocument: the schema is the normal index schema, so that both classifications of an update agree; every single-valued filter number is indexed, otherwise the source has no column for it.
- PrepareDocument: the DATE property, nominal properties and summary blocks are left out. The document collected for an update in place is dropped, as in the source; the source's note of changed rtype property names is left out.
- BufferedIsImmediate: one buffer of one worker thread; index updates and rtype columns, which are written before buffering, are not part of the stores compared. The REPLACE kind of update is never produced and left out.
- Restart: the count of deleted documents is 0 after loading, as in the source.
- PairwiseScdMerger.Merger.Run: documents without an id, a custom pre-processor and a split by a property other than DOCID are left out; the order in which the hash table gives out the cache is not fixed.
- CrashSafe: covers process death at any point, not sections left by a caught exception, which the guard also marks valid. A copy onto a directory is not made inside a guarded section of that directory. The copied files themselves are left out.
- RotateToNewest: update times are those last set in memory.
- Build: offsets are distinct, being positions in a file; the store below is a pair of maps.
- Safety: removals and waits are called from outside the worker. `asynchronousWorker_` is the thread started last; a call's interrupt and the beginning of its join read it one after the other, and races on the thread object itself are left out. The queue's own operations are atomic (its class is not part of the repository), its capacity and the shutdown of the scheduler are left out.
- ReturnsIff: continuations in which no two removals replace the worker at once.
- Normalize: characters are single bytes in the C locale, as in the source; the other query helpers of the class are left out.
- Remote calls, ZooKeeper, replication, file transfer, language analysis, index engines, mining, recommendation, log analysis and the web interface.
