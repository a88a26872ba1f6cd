# EasySearch: the index, its compaction, its searches and its caches

EasySearch keeps one index per NTFS volume: an immutable base of columns (record
rows, a name blob, a child table, a lookup table from record number to row) under
a mutable overlay that journal events change. Every query merges the two layers;
a background compaction folds the overlay into a fresh base; an incremental
search keeps candidate lists between keystrokes; a cache file carries the base
over a restart; and folder sizes are summed over the raw file table.

This project models that program in Dafny and proves what it is for.

* **One tree, two layers** (`Overlay`, `VolumeTree`, `Refinement`,
  `Observations`, `BatchOrder`). Base plus overlay refines a finite map from
  record number to name, parent number and directory flag. Each well-formed event
  is one map update, every query is a function of that map, and a batch with one
  event for each record number may come in any order, exactly when no move in it
  names a parent that it creates or deletes.
* **Compaction** (`Builder`, `Compaction`, `Attributes`). The rebuilt index is a
  bisimulation of the old one, exactly when the tree was settled at capture; flags,
  sequence numbers and ranks survive it too.
* **The compaction protocol** (`Drives`, `Protocol`, `Crossings`, `StaleRuns`). A
  step system over gate, compaction threads, journal polls, installs and removals.
  Within one installation every interleaving keeps each drive equal to the fold of
  the batches up to its own cursor; across installations the exact conditions are
  given, with a run for each that ends with content and cursor apart.
* **Searching** (`Matching`, `Search`, `TopScores`, `Ranking`, `DriveRanking`,
  `ShortQueries`, `Results`, `DriveAnswers`, `Session`, `SessionLimits`,
  `SessionAnswers`). Every result shows a record as it is, with the worth of its
  match; bounded selections keep the best scores over all drives, best first, for
  queries of every length; with room for all matches none is missing; and a cached
  search answers as an uncached one, exactly when the folded query contains the
  folded prefix.
* **Paths** (`Chains`, `Paths`, `PathLookup`, `PathRoundTrip`, `TrailingSpace`,
  `PathSpellings`, `Enumeration`, `Listings`). Bounded walks detect cycles exactly, a
  record is found by exactly the texts that spell its names, and a listing ends and
  returns exactly the matching records in or below its directory.
* **Building and storing** (`DraftOrder`, `DraftRows`, `FileRefMaps`, `Bytes`, `Cache`,
  `CacheLayout`, `CacheLimits`, `Reload`). Rows are added parents first and lie under
  the parents they name, a built index always fits its cache file and reads back, and
  a restart loses exactly the overlay entries that show.
* **Folder sizes** (`TreeMetrics`, `LinkConservation`, `CompressedStreams`,
  `StreamCounts`, `TreeTraversals`). The shares of a hard-linked file add up, and the
  root propagates every reachable record once, compressed streams left out.

`IndexObject`, `Builder`, `FileRefMaps`, `Drives`, `Session` and `TreeTraversals`
hold the program's objects as classes whose methods loop and update in place;
each method is tied to the operation on values that the theorems are about.

Text is a list of UTF-8 units, one `char` below 256 each. Case folding and the two
sorts are parameters (`Env`) with stated laws: folding agrees with ASCII
lower-casing on ASCII text (`FoldLaws`) and keeps white space at the end of a text
(`FoldKeepsSpace`), and the sorts rearrange their list by descending score
(`SortLaws`). `Laws` holds an environment that meets all of them.

Where the code and what its comments promise differ:

* A create for a record number that is still live leaves two live records with one
  number (`Refinement.CreateKeepsInvIffFresh`, `BatchOrder.BatchKeepsInvIffFresh`).
  A number that is deleted and used again within one poll arrives so, because the
  aggregation of a poll keeps only the last state of each number
  (crates/mft/src/usn/mod.rs:341-358, `SmallIndexes.ReusedNumberBreaksInv`).
* A poll hands its events over in the order of a hash map, and a move that comes
  before the create of its new parent is lost (`BatchOrder.AnyOrderDoesIffUnmet`,
  `SmallIndexes.MoveBeforeItsParentIsLost`).
* A record that was created in the overlay and then moved is listed twice among its
  directory's children, and with it everything below it
  (`Overlay.ChildMultiplicity`, `Listings.DescendantsAreListed`).
* The revision that guards a commit restarts at zero with every installation, so a
  compaction that a rescan overtook can still commit
  (`Crossings.StaleCommitIsSafeIff`, `StaleRuns.RebuildDuringCompaction`).
* A poll that a rescan overtook is applied to the new index
  (`Crossings.StaleBatchIsSafeIff`, `StaleRuns.RebuildDuringQuietPoll`,
  `StaleRuns.RebuildDuringLoudPoll`).
* Folding is Unicode lower-casing of whole texts, so a final sigma makes a typed-on
  query lose matches (`SessionLimits.FinalSigmaLosesMatches`).
* A query of one or two characters misses base records that were renamed to match it
  (`ShortQueries.ShortFindsIff`, `SmallIndexes.ShortQueryMissesRenamedFile`).
* A path whose last name ends in white space, of any kind that Unicode has, does not
  resolve (`TrailingSpace.RoundTripIffNoTrailingSpace`,
  `SmallIndexes.TrailingSpaceDoesNotResolve`).
* The cache is written after the commit lock is released, from the base columns
  alone but with the current cursor (`Reload.RestartRestoresIffNoEntryShows`,
  `Reload.RestartLosesNewEvent`).
* The products behind the shares of a hard-linked stream wrap at 64 bits
  (`TreeMetrics.SharesAddUpIffDivides`), which takes files beyond the limits of NTFS
  (`TreeMetrics.SharesWrap`, `TreeMetrics.SharesAddUpOnNtfs`).

## Model

| member | source | states |
|---|---|---|
| `FileRefMaps.GetIsMapLookup` | crates/core/src/index.rs:165-185 | in either representation, a lookup is the lookup in the finite map of the table's pairs |
| `FileRefMaps.FromPairsKeepsMap` | crates/core/src/index.rs:119-161 | pairs with distinct numbers become a valid table of the same map, dense or sorted |
| `FileRefMaps.DenseIffNarrow` | crates/core/src/index.rs:119-161 | a table is dense if and only if its numbers span at most four places for each pair, or at most 1024 |
| `FileRefMaps.RebuildKeepsLookups` | crates/core/src/index.rs:119-236 | exporting the pairs and rebuilding keeps every lookup |
| `FileRefMaps.InsertIsMapUpdate` | crates/core/src/index.rs:188-198 | insert is the map update, also when it switches representation |
| `FileRefMaps.RemoveIsMapDelete` | crates/core/src/index.rs:201-210 | remove is the map deletion, also when it switches representation |
| `FileRefMaps.BuildFromPairs` | crates/core/src/index.rs:119-161 | the loop that fills dense slots in place builds the table that the pairs determine |
| `FileRefMaps.FileRefTable.InsertEntry` | crates/core/src/index.rs:188-198 | the search for an existing pair, in place, performs the insert |
| `FileRefMaps.FileRefTable.RemoveEntry` | crates/core/src/index.rs:201-210 | the filter, in place, performs the remove |
| `Overlay.ApplyEventsKeepStruct` | crates/core/src/index.rs:1129-1207 | any events at all, well-formed or not, keep all overlay indices in range and leave the base alone |
| `Overlay.ChildrenAreParentInverse` | crates/core/src/index.rs:522-580 | the three child loops list a record exactly if it is in range, not deleted and has this logical parent |
| `Overlay.ChildMultiplicity` | crates/core/src/index.rs:547-577 | each child is listed once, except a moved overlay record, which is listed twice |
| `Refinement.AbsHas` | crates/core/src/index.rs:416-428 | the numbers of the abstract tree are those that lookups find, each at a live record that carries it |
| `Refinement.DeleteRefines` | crates/core/src/index.rs:1140-1148 | deleting a childless number removes it from the tree and nothing else |
| `Refinement.CreateRefines` | crates/core/src/index.rs:1150-1172 | creating a fresh number adds its record, whether or not its parent is known yet, number reuse included |
| `Refinement.RenameMoveRefines` | crates/core/src/index.rs:1174-1207 | a rename or move changes one record's name and parent; of an unknown number it is a create |
| `Refinement.EventRefines` | crates/core/src/index.rs:1129-1207 | every well-formed event is one update of the map from record number to name, parent and directory flag |
| `Refinement.EventsRefine` | crates/core/src/index.rs:1129-1138 | every well-formed run of events is the fold of its updates, and live records and lookups stay inverse |
| `Refinement.CreateKeepsInvIffFresh` | crates/core/src/index.rs:1150-1172 | a create keeps lookups inverse to live records if and only if its number was not live |
| `Refinement.DeleteKeepsInvIffUnreferenced` | crates/core/src/index.rs:1140-1148 | a delete keeps stored parents live if and only if no other live record stores the deleted one |
| `Observations.CycleDetectionExact` | crates/core/src/index.rs:496-516 | the bounded walk yields a path if and only if the parent chain reaches a parentless record, and otherwise reports a cycle |
| `Observations.PathFromIdxExact` | crates/core/src/index.rs:332-345 | the base walk agrees with the logical walk and detects cycles exactly |
| `Observations.PathFactorsThroughTree` | crates/core/src/index.rs:496-516 | the printed path of a live record is the path of its number in the abstract tree, cycles included |
| `Observations.ChildrenFactorThroughTree` | crates/core/src/index.rs:522-580 | the listed children of a live record are the children of its number in the abstract tree |
| `BatchOrder.OrderFreeIffUnmet` | crates/engine/src/usn_source.rs:116-146 | all orders of a batch with one event for each number lead to one tree if and only if no move of a known record names as its parent a number that appears or disappears in the batch |
| `BatchOrder.AnyOrderDoesIffUnmet` | crates/engine/src/usn_source.rs:116-146 | so every order of a batch that is well-formed in one order keeps the invariant and gives the same tree, under exactly that condition |
| `BatchOrder.ReorderedRefines` | crates/core/src/index.rs:1129-1207 | whatever order a batch comes in, if some order with the same outcome is well-formed, the index follows the tree and keeps the invariant |
| `BatchOrder.SettledBatchRefines` | crates/core/src/index.rs:1129-1207 | so it does, in any order, if the batch creates no live number and the tree it leads to misses no parent |
| `BatchOrder.BatchKeepsInvIffFresh` | crates/core/src/index.rs:1129-1207 | towards such a tree, a batch keeps the invariant if and only if it creates no live number |
| `BatchOrder.BatchesRefine` | crates/core/src/index.rs:1129-1207 | batch after batch, each in its own order, the index follows the tree |
| `SmallIndexes.MoveBeforeItsParentIsLost` | crates/core/src/index.rs:1174-1189 | of a new directory and a move into it, the order decides whether the file moves |
| `SmallIndexes.ReusedNumberBreaksInv` | crates/mft/src/usn/mod.rs:341-358 | a sound index receives the create that a delete and a reuse of one number net to, and is no longer sound |
| `Builder.EsIndexBuilder.AddRecord` | crates/core/src/builder.rs:37-67 | appends one row, name and pair and returns its index, or fails at the first size limit and changes nothing |
| `Builder.AddFitsIff` | crates/core/src/builder.rs:37-67 | a record is refused if and only if its name has 64 KiB or more, the names before it 4 GiB or more, or there are 2^32 records before it |
| `Builder.EsIndexBuilder.FillBuckets` | crates/core/src/builder.rs:70-103 | one pass fills each bucket with the ascending list of its parent's children, or names a parent out of range |
| `Builder.EsIndexBuilder.Finish` | crates/core/src/builder.rs:70-149 | succeeds if and only if every parent is none or in range, and lays the columns out |
| `Builder.BuiltRow` | crates/core/src/builder.rs:49-66 | each row carries its record's reference, parent, flags and rank, its name's length and the bytes of the names before it |
| `Builder.BuiltNames` | crates/core/src/index.rs:307-329 | each name slice returns the name that was added |
| `Builder.BuiltChildren` | crates/core/src/index.rs:348-389 | the children of a row are the ascending list of the rows that name it as parent |
| `Builder.RowsPartition` | crates/core/src/builder.rs:105-135 | the rows of the child table partition the records that have a parent |
| `Builder.BuiltLookup` | crates/core/src/builder.rs:120-149 | the lookup table finds exactly the records that were added |
| `Builder.BuiltViewOk` | crates/core/src/builder.rs:70-149 | a finished index satisfies the invariant that events keep |
| `Builder.BuiltTree` | crates/core/src/builder.rs:70-149 | its tree has one node for each addition, with the name, parent number and kind that were added |
| `Compaction.Rebuild` | crates/core/src/index.rs:51-80 | rebuilding succeeds exactly when every record passes the size limits, and then yields the relabelled base |
| `Compaction.SnapshotBuildable` | crates/core/src/index.rs:599-641 | a snapshot of an index that satisfies the invariant always meets the builder's conditions |
| `Compaction.CompactRow` | crates/core/src/index.rs:51-80 | the k-th new row is the k-th live record in order, with its reference, flags and name |
| `Attributes.FlagBits` | crates/core/src/record.rs:14-26 | the lowest bit of the flags marks a directory and the second a tombstone, whatever the others say |
| `Attributes.CompactionKeepsAttributes` | crates/core/src/index.rs:51-80 | a compaction keeps the whole file reference, all flag bits and the rank of every record number |
| `Attributes.EventKeepsAttributes` | crates/core/src/index.rs:1129-1207 | an event changes those of its own number alone, and a rename or move of a known record changes none |
| `Compaction.CompactParent` | crates/core/src/index.rs:62-67 | parents correspond under the relabelling, in both directions |
| `Compaction.CompactSettlesTree` | crates/core/src/index.rs:51-80 | the rebuilt tree is the old tree with unresolved parents turned into none, under an empty overlay |
| `Compaction.ObservationsAreOfTheTree` | crates/core/src/index.rs:416-580 | name, directory flag, path and children seen through lookups are those of the abstract tree |
| `Compaction.CompactionInvisibleNow` | crates/core/src/index.rs:51-80 | right after compaction every query answers as before, settled or not |
| `Compaction.CompactionBisimulates` | crates/core/src/index.rs:599-641 | from a settled index, any further batches, each well-formed in some order, keep old and rebuilt index equal to every query |
| `Compaction.LateParentIsVisible` | crates/core/src/index.rs:64-67 | whichever create brings a missing parent after a compaction, its waiting children are never linked to it |
| `Compaction.CompactionInvisibleIffSettled` | crates/core/src/index.rs:51-80 | compaction stays invisible under every future of such batches if and only if the tree was settled at capture |
| `IndexObject.EsIndex.constructor` | crates/core/src/index.rs:264-284 | a new index has an empty overlay over its base |
| `IndexObject.EsIndex.ApplyDelete` | crates/core/src/index.rs:1140-1148 | in place, performs the delete |
| `IndexObject.EsIndex.ApplyCreate` | crates/core/src/index.rs:1150-1172 | in place, performs the create |
| `IndexObject.EsIndex.ApplyRenameMove` | crates/core/src/index.rs:1174-1189 | in place, performs the rename or move, the parent looked up after the rename |
| `IndexObject.EsIndex.SetName` | crates/core/src/index.rs:1191-1203 | renames a base row in the overlay map and an overlay row in its own entry |
| `IndexObject.EsIndex.SetParent` | crates/core/src/index.rs:1205-1207 | records the move |
| `IndexObject.EsIndex.ApplyEvents` | crates/core/src/index.rs:1129-1138 | the event loop leaves the fold of all events and changes only the overlay |
| `IndexObject.EsIndex.Children` | crates/core/src/index.rs:522-580 | the three loops build the child list of `ChildrenAreParentInverse` |
| `IndexObject.EsIndex.Path` | crates/core/src/index.rs:496-516 | the walk loop ends within one step more than there are records and returns the logical path or its error |
| `IndexObject.EsIndex.TakeSnapshot` | crates/core/src/index.rs:599-641 | the loop captures the live records in order |
| `IndexObject.EsIndex.SearchCandidateIds` | crates/core/src/index.rs:684-796 | listed or full scan, bounded list and budgeted candidate list, as the specification of the search |
| `IndexObject.InsertBounded` | crates/core/src/index.rs:1223-1237 | the search for the lowest score and its first position performs the bounded insert |
| `IndexObject.EsIndex.LookUp` | crates/core/src/index.rs:1059-1126 | the descent loop resolves a path as `PathLookup.Resolve` does, errors included |
| `IndexObject.EsIndex.ListBelow` | crates/core/src/index.rs:993-1016 | the stack loop ends and lists the descendants |
| `IndexObject.EsIndex.EnumeratePath` | crates/core/src/index.rs:979-1047 | lookup, listing, first path error, ranking and limit, as specified |
| `IndexObject.EsIndex.Search` | crates/core/src/index.rs:798-954 | the scan that the length of the query calls for, as `ShortQueries.SearchIndex` specifies |
| `Drives.DriveManager.RemoveDrive` | crates/engine/src/drive_manager.rs:94-101 | drops the drive, and bumps the generation only if there was one |
| `Drives.DriveManager.InstallDrive` | crates/engine/src/drive_manager.rs:104-113 | replaces the drive with revision 0 and bumps the generation |
| `Drives.DriveManager.ApplyBatch` | crates/engine/src/drive_manager.rs:126-143 | applies the events and moves the cursor; only a batch with events moves revision and generation |
| `Drives.DriveManager.CommitCompact` | crates/engine/src/drive_manager.rs:181-193 | replaces the index if and only if the revision is unchanged, and says so |
| `Drives.DueIffFivePercent` | crates/core/src/index.rs:589-596 | a compaction is due if and only if the overlay holds an entry, and one for every twenty base records |
| `Drives.CapturesFirstDue` | crates/engine/src/drive_manager.rs:146-178 | what is captured is the first drive whose compaction is due, with its revision and cursor |
| `Drives.DriveManager.Search` | crates/engine/src/drive_manager.rs:210-230 | the loop over drives and the joint cut, as specified, for queries of every length |
| `Drives.DriveManager.SearchCandidateSets` | crates/engine/src/drive_manager.rs:232-291 | the loop over drives, with its shrinking candidate budget, as specified |
| `Drives.EntryAfterApply` | crates/engine/src/drive_manager.rs:126-143 | a batch changes the entry of its own letter and no other |
| `Drives.EntryAfterCommit` | crates/engine/src/drive_manager.rs:181-193 | a commit changes the entry of its own letter, if the revision matches, and no other |
| `Drives.EntryAfterInstall` | crates/engine/src/drive_manager.rs:104-113 | an install leaves one entry under its letter and all others as they were |
| `Drives.EntryAfterRemove` | crates/engine/src/drive_manager.rs:94-101 | a removal leaves no entry under its letter and all others as they were |
| `Drives.ApplyBumps` | crates/engine/src/drive_manager.rs:126-143 | the generation moves on, or nothing that a search sees has changed |
| `Drives.CommitBumps` | crates/engine/src/drive_manager.rs:181-193 | the same for a commit |
| `Drives.InstallBumps` | crates/engine/src/drive_manager.rs:104-113 | the same for an install |
| `Drives.RemoveBumps` | crates/engine/src/drive_manager.rs:94-101 | the same for a removal |
| `Drives.ScanCollectsCompleteSets` | crates/engine/src/drive_manager.rs:232-291 | candidate sets that survive the budget are the complete match lists of all drives, in scan order |
| `Drives.SearchRefinementIsFull` | crates/engine/src/drive_manager.rs:232-291 | refining the complete sets of a query that is narrowed gives results and candidates of a full search |
| `Protocol.StepKeepsGate` | crates/engine/src/lib.rs:741-836 | after every step the gate is closed exactly if one compaction is in flight, and never two are |
| `Protocol.CommitKeepsTree` | crates/engine/src/lib.rs:790-800 | a commit whose revision matches puts back the very tree that the drive holds |
| `Protocol.CommitIsSafe` | crates/engine/src/lib.rs:790-807 | committing or discarding keeps content, histories, jobs and polls sound |
| `Protocol.CaptureIsSafe` | crates/engine/src/lib.rs:753-765 | capturing under the read lock, or giving up without a candidate, keeps everything sound |
| `Protocol.ApplyIsSafe` | crates/engine/src/lib.rs:259-301 | applying a polled batch extends the history by it and makes older captures uncommittable unless it was empty |
| `Protocol.InstallIsSafe` | crates/engine/src/drive_manager.rs:104-113 | an install starts a new history and leaves other drives, jobs and polls sound |
| `Protocol.StepIsSafe` | crates/engine/src/lib.rs:741-836 | every step that crosses no installation keeps content equal to cursor |
| `Protocol.EveryRunIsSafe` | crates/engine/src/lib.rs:741-836 | in every interleaving within installations, each drive is the volume's tree at its own cursor and the fold of exactly the batches up to it, and the gate is exact |
| `Protocol.GateCanReopen` | crates/engine/src/lib.rs:741-836 | whatever state the gate is closed in, one or two steps of its thread can open it again |
| `Protocol.GivingUpFreesGate` | crates/engine/src/lib.rs:741-785 | a compaction that gives up before it has captured anything opens the gate at once, one that is at work as its next step, and no drive changes |
| `Crossings.StaleCommitIsSafeIff` | crates/engine/src/drive_manager.rs:181-193 | a commit that outlived its installation is safe if and only if no poll of the drive is pending or the volume looks the same at the poll's cursor |
| `Crossings.BatchIsSafeIff` | crates/engine/src/lib.rs:290-301 | applying a batch with one event for each number, in any installation, is safe if and only if it creates nothing that the drive holds and leads, in its order, to the volume's tree at the new cursor |
| `Crossings.StaleBatchIsSafeIff` | crates/engine/src/lib.rs:270-301 | a batch that outlived its installation is safe if and only if it creates nothing that the new installation holds and leads from there to the tree that it leads to from where the poll started |
| `Crossings.StaleHistoryIsSafeIff` | crates/engine/src/lib.rs:270-301 | for any batch that is a possible history of the new installation's tree, the second half is the condition |
| `Crossings.SafeStaleBatchAgrees` | crates/engine/src/lib.rs:270-301 | a safe one found every number that it does not name as the poll had left it |
| `Crossings.StaleBatchIsSafeOnSameTree` | crates/engine/src/lib.rs:270-277 | it is right where the new installation holds the tree the poll started from |
| `Crossings.QuietStaleBatchIsSafeIff` | crates/engine/src/lib.rs:290-301 | a batch that only moves the cursor is safe on that tree and on no other |
| `StaleRuns.RebuildDuringPollIff` | crates/engine/src/lib.rs:623-670 | in a run in which a drive is removed, rescanned and installed again while a poll is out, the drive ends sound if and only if the poll's batch creates nothing that the rescan saw and leads from there to the volume at the poll's cursor |
| `StaleRuns.QuietPollBreaksRebuild` | crates/engine/src/lib.rs:623-670 | whenever the volume differs between the two cursors, such a poll that only moves the cursor leaves content and cursor apart |
| `StaleRuns.LoudPollBreaksRebuild` | crates/engine/src/lib.rs:623-670 | so does one that brings the create of a record which the rescan saw |
| `StaleRuns.RebuildDuringQuietPoll` | crates/engine/src/lib.rs:623-670 | a legal run of install, poll, rebuild and quiet poll result that ends so |
| `StaleRuns.RebuildDuringLoudPoll` | crates/engine/src/lib.rs:623-670 | a legal run in which the poll result creates a file that the rescan saw, and the drive ends unsound |
| `StaleRuns.RevisionComesBack` | crates/engine/src/lib.rs:623-670 | a compaction captured before a rebuild reaches its commit after it with an equal revision, by legal steps that all keep every drive sound |
| `StaleRuns.StaleCommitMeetsPoll` | crates/engine/src/drive_manager.rs:181-193 | the commit then puts back the tree of the first installation under a pending poll of the second |
| `StaleRuns.StaleCommitLosesContent` | crates/engine/src/lib.rs:790-800 | and when that poll returns without events, the drive is not the volume at its cursor |
| `StaleRuns.RebuildDuringCompaction` | crates/engine/src/lib.rs:741-836 | such a run, concretely: one file before the rebuild, another after it |
| `Matching.MatchIsContains` | crates/core/src/search/mod.rs:59-104 | both branches of the matcher say whether the folded name contains the folded query |
| `Matching.ScoreIsWorth` | crates/core/src/search/mod.rs:59-104 | in both branches of the matcher, a match of the whole folded name is worth 1000 points, one at its start 900, one inside it 800, a directory 100 more, and the first occurrence is highlighted |
| `Matching.NarrowsIffContains` | crates/core/src/search/mod.rs:59-104 | all names that match the longer query match the shorter one if and only if the longer folded query contains the shorter |
| `Search.ScannedIsListed` | crates/core/src/index.rs:734-782 | the full scan and the refinement see each record under the same name and flag, renames included |
| `Search.RefinementReplaysScan` | crates/core/src/index.rs:719-782 | scanning the matches of a narrowed query finds the matches of the narrower one, in the same order |
| `Search.RefinementIsFullScan` | crates/core/src/index.rs:684-796 | so results and candidate list are those of a full scan |
| `TopScores.InsertKeepsTop` | crates/core/src/index.rs:1223-1237 | one bounded insert keeps the best scores of the longer stream |
| `TopScores.TopScoresUnique` | crates/core/src/index.rs:1223-1237 | any two exact selections of one stream hold the same scores, as multisets |
| `Ranking.TopNKeepsTop` | crates/core/src/index.rs:1223-1237 | the bounded list of any stream holds exactly its best scores |
| `Ranking.CandidateScanKeepsTop` | crates/core/src/index.rs:684-796 | a candidate scan returns the best scores of all matches when every selected path resolves |
| `Ranking.DirectSearchKeepsTop` | crates/core/src/index.rs:849-954 | for queries of three characters or more, the direct search, whose overlay matches bypass the bound, selects the same scores |
| `Ranking.MergeKeepsTop` | crates/engine/src/drive_manager.rs:210-230 | where each drive returns the best of its own scores, the joint cut of their lists holds the best over all drives |
| `Results.SearchAnswers` | crates/core/src/index.rs:798-954 | each result of a search of one index shows a record that is not deleted, with its path, name, kind, points and highlights, that a query of this length may find; the best come first; with room for all matches none is missing |
| `Results.CandidateAnswers` | crates/core/src/index.rs:684-796 | so does each result of a candidate search, of all records or of listed ones |
| `Results.EmptyQueryAnswers` | crates/core/src/index.rs:814-831 | the empty query returns, as far as they have a path, exactly the records with fewer than `limit` undeleted ones before them |
| `Results.AnswerIsWorth` | crates/core/src/index.rs:923-954 | points and highlights of a result are the worth of the first occurrence in its own folded name |
| `Results.SearchKeepsTop` | crates/core/src/index.rs:798-954 | a search of any length returns the best scores of the matches it may find, when every selected path resolves |
| `DriveAnswers.AllAnswers` | crates/engine/src/drive_manager.rs:232-291 | each result of a candidate search over drives shows a match on some drive; the best come first; with room for all none is missing |
| `DriveAnswers.AllDirectAnswers` | crates/engine/src/drive_manager.rs:210-230 | so does each result of the search without candidates, for queries of every length |
| `DriveAnswers.AllDirectKeepsTop` | crates/engine/src/drive_manager.rs:210-230 | for queries of every length it returns the best scores of all matches that it may find on all drives |
| `DriveAnswers.CandidatesKeptIffTheyFit` | crates/engine/src/drive_manager.rs:232-291 | the candidate sets survive if and only if all matches on all drives fit the budget, of which they leave the rest |
| `DriveAnswers.KeptCandidatesAreMatches` | crates/engine/src/drive_manager.rs:232-291 | what survives is, for each drive, the ascending list of the records that match |
| `DriveRanking.SearchAllKeepsTop` | crates/engine/src/drive_manager.rs:232-291 | the search that collects candidates returns the best scores of all matches on all drives, when every selected path resolves |
| `DriveRanking.SearchAllDirectKeepsTop` | crates/engine/src/drive_manager.rs:210-230 | so does the direct search, for queries of three characters or more |
| `DriveRanking.RoutesAgree` | crates/engine/src/drive_manager.rs:210-291 | for queries of three characters or more both routes return the same scores, as multisets, whatever the sorts do with ties |
| `DriveRanking.BothRoutesKeepTop` | crates/engine/src/drive_manager.rs:210-291 | where every record of every drive has a path, no assumption about selected paths is needed |
| `ShortQueries.PrefixIndex.AddAll` | crates/core/src/builder.rs:108-138 | the loop registers every base record under the first two characters of its folded name |
| `ShortQueries.PrefixIndex.Candidates` | crates/core/src/search/prefix.rs:23-31 | the loop over the buckets collects the candidates of those whose key begins with the query |
| `ShortQueries.ProposedOnce` | crates/core/src/search/prefix.rs:15-31 | for a query of one or two characters the candidates are the base records whose folded name begins with it, each once |
| `ShortQueries.BucketsAreOrdered` | crates/core/src/search/prefix.rs:9-21 | the buckets stand in the order of their keys, unit by unit, and no key has two |
| `ShortQueries.ShortFindsIff` | crates/core/src/index.rs:832-848 | a short query finds a record if and only if a full scan does and the record is new in the overlay or its name began with the query when the index was built |
| `ShortQueries.ShortSearchKeepsTop` | crates/core/src/index.rs:832-848 | and returns the best scores of what it finds, when every selected path resolves |
| `ShortQueries.FirstLiveLists` | crates/core/src/index.rs:814-831 | an empty query selects the first records that are not deleted, in index order |
| `SmallIndexes.ShortQueryMissesRenamedFile` | crates/core/src/index.rs:832-848 | a file "a" renamed to "b" is found by a scan for "b" and not by the short query |
| `Session.SearchSession.PushSnapshot` | crates/engine/src/search_session.rs:175-197 | the eviction loop ends, and pushing leaves the newest snapshots that fit |
| `Session.SearchSession.SearchFor` | crates/engine/src/search_session.rs:91-173 | plans, searches and stores in place, as specified |
| `Session.EvictMakesRoom` | crates/engine/src/search_session.rs:181-190 | eviction ends with room for the new set |
| `Session.EvictKeepsNewest` | crates/engine/src/search_session.rs:181-190 | eviction drops a prefix, the oldest, and keeps the rest |
| `Session.EvictsAsNeeded` | crates/engine/src/search_session.rs:181-190 | it drops no more than it must: with one snapshot less dropped, four would be left or too many candidates |
| `Session.QueryKeepsMemory` | crates/engine/src/search_session.rs:91-197 | every query keeps the counter exact and capped, and at most 4 snapshots of one generation and distinct queries |
| `Session.QueryIsCoherent` | crates/engine/src/search_session.rs:91-173 | an uncancelled query of three characters or more answers as an uncached search, in every mode, if it contains the query whose snapshot it reuses, both folded |
| `Session.RunKeepsMemory` | crates/engine/src/search_session.rs:91-197 | the memory bounds hold after every run of queries, cancellations and manager changes, without any condition |
| `Session.SessionCoherence` | crates/engine/src/search_session.rs:91-173 | after every such run a query answers as an uncached search, if each query contained what it reused |
| `SessionAnswers.ShortQueryAnswers` | crates/engine/src/search_session.rs:98-101 | after any run, each result of an uncancelled query of fewer than three characters shows a record of some drive that such a query may find, best first, none missing where there is room, and the cache is empty afterwards |
| `SessionAnswers.ShortQueryKeepsTop` | crates/engine/src/search_session.rs:98-101 | it returns the best scores of all such records, when every selected path resolves |
| `SessionAnswers.LongQueryAnswers` | crates/engine/src/search_session.rs:91-173 | each result of a longer query, cache or not, shows a match on some drive, best first, none missing where there is room |
| `SessionAnswers.PlanReusesLongest` | crates/engine/src/search_session.rs:112-158 | a query reuses the snapshot of the longest remembered query that it extends, its own or one to be filtered, and without any scans everything |
| `SessionAnswers.QueryLeavesCurrent` | crates/engine/src/search_session.rs:103-110 | whatever a query leaves behind, cancelled or not, is of the manager's current generation |
| `SessionAnswers.AskedAgainIffMatchesFit` | crates/engine/src/search_session.rs:91-197 | asking a query again reports reuse of its own snapshot if and only if all its matches fit the cache |
| `SessionLimits.ReuseSafeIffFoldContains` | crates/engine/src/search_session.rs:112-151 | typing on from a cached prefix is safe for all indexes if and only if the folded query contains the folded prefix |
| `SessionLimits.AsciiReuseIsSafe` | crates/core/src/search/fold.rs:7-9 | ASCII queries always meet that condition |
| `Laws.LawsCanBeMet` | crates/core/src/search/fold.rs:7-9 | lowering ASCII letters and sorting by insertion meet every law that is asked of folding and sorting |
| `SessionLimits.AsciiSessionCoherence` | crates/engine/src/search_session.rs:91-173 | so after every run of ASCII queries and manager changes an ASCII query answers as an uncached search |
| `SessionLimits.FinalSigmaLosesMatches` | crates/core/src/search/fold.rs:7-9 | a word that ends in a capital sigma, typed on by one letter, loses a file that an uncached search finds |
| `PathLookup.WalkFindsSpelled` | crates/core/src/index.rs:1059-1126 | whatever a path resolves to is a live record whose names up to its root match the parts |
| `PathLookup.ResolvedReachesRoot` | crates/core/src/index.rs:1059-1126 | and its parent chain reaches a parentless record, whatever cycles exist elsewhere |
| `PathLookup.PartsOfPrinted` | crates/core/src/index.rs:1249-1264 | splitting a printed path gives back the names, with the drive in upper case |
| `PathLookup.PrintedIsNormalized` | crates/core/src/path.rs:13-32 | a printed path is already normalized unless its last name ends in white space, Unicode's included |
| `PathRoundTrip.WalkRetraces` | crates/core/src/index.rs:1059-1126 | walking down the names that a walk up collected leads back to the record |
| `PathRoundTrip.PathRoundTrips` | crates/core/src/index.rs:1050-1126 | the printed path of a live record resolves to that record |
| `PathSpellings.SlashesDoNotMatter` | crates/core/src/path.rs:13-32 | texts that differ only in which separator they use are looked up alike |
| `PathSpellings.SlashedPathResolves` | crates/core/src/path.rs:13-32 | the printed path of a live record resolves to it with either separator at any place |
| `PathSpellings.PaddedPathResolves` | crates/core/src/path.rs:13-32 | and with white space around it and more separators behind it |
| `PathSpellings.TrimmedInFrontIff` | crates/core/src/path.rs:14-15 | what is trimmed in front is a character with the Unicode property White_Space, by code point, and any such is |
| `PathSpellings.TrimmedBehindIff` | crates/core/src/path.rs:14-15 | so is what is trimmed behind |
| `PathSpellings.WalkFindsIffSpelled` | crates/core/src/index.rs:1059-1126 | where siblings have different names, a lookup finds a record if and only if the parts spell its names from the root down, as folded |
| `TrailingSpace.RoundTripIffNoTrailingSpace` | crates/core/src/path.rs:13-32 | it does so if and only if the record's name does not end in white space, Unicode's included |
| `SmallIndexes.TrailingSpaceDoesNotResolve` | crates/core/src/path.rs:13-32 | so the printed path of a file "a " does not resolve to it |
| `Enumeration.PopShrinks` | crates/core/src/index.rs:993-1016 | expanding the top of the stack leaves fewer visits to make, below a record that reaches a root |
| `Enumeration.DescendantsAreBelow` | crates/core/src/index.rs:993-1016 | the recursive listing visits exactly the records below its start that are not deleted, through directories |
| `Listings.DescendantsAreListed` | crates/core/src/index.rs:993-1016 | the stack loop lists a record as often as its directory, twice that for a moved overlay record, and at least once exactly if it lies below |
| `Listings.RecursiveListing` | crates/core/src/index.rs:979-1047 | a recursive listing returns the best of the matching records below its directory, each result showing one of them, best first, and none missing where there is room |
| `Listings.FlatListing` | crates/core/src/index.rs:979-1047 | a listing that is not recursive does so for the directory's children |
| `Enumeration.EnumerateFailsOnlyOnLookup` | crates/core/src/index.rs:979-1047 | listing fails if and only if the directory is not found |
| `DraftOrder.WithRootHasRoot` | crates/engine/src/drive_manager.rs:588-606 | there is one root, a parentless directory named like the drive that keeps its other flags, and every other draft is as found |
| `DraftOrder.BuildFromDrafts` | crates/engine/src/drive_manager.rs:588-672 | the passes end; every draft is placed once, parents first, and only a name of 64 KiB or more, or names of 4 GiB or more together, fail |
| `DraftOrder.Pass` | crates/engine/src/drive_manager.rs:636-658 | one pass places only drafts whose parent is placed or unneeded; if it places none, all others wait |
| `DraftOrder.AttachRest` | crates/engine/src/drive_manager.rs:660-669 | the fallback places the rest under the root |
| `DraftOrder.EachDraftOnce` | crates/engine/src/drive_manager.rs:608-670 | there is exactly one row for each draft |
| `DraftOrder.ParentsComeFirst` | crates/engine/src/drive_manager.rs:608-670 | every row has no parent or one with a smaller index |
| `DraftOrder.FallbackIffNotAnchored` | crates/engine/src/drive_manager.rs:660-669 | the fallback takes exactly the drafts whose parent chain meets no root, no parentless draft and no draft that is its own parent |
| `DraftRows.RowOfDraft` | crates/engine/src/drive_manager.rs:588-672 | by record numbers: each row carries its draft's number, name and flags, has no parent if the draft is the root or names none or itself, lies under its parent's row if the chain of parents ends somewhere, and else under the root |
| `DraftOrder.OrderedDraftsBuild` | crates/engine/src/drive_manager.rs:588-672 | drafts with record numbers of their own make a sound index in which every record has a path |
| `Cache.HeaderRoundTrip` | crates/core/src/cache_header.rs:24-116 | the header is 112 bytes and reads back as written |
| `Cache.RecordRoundTrip` | crates/core/src/record.rs:31-48 | a row is 24 bytes and reads back as written |
| `Cache.SectionsTile` | crates/core/src/cache.rs:130-176 | each section begins where the one before it ends |
| `CacheLayout.HeaderBegins` | crates/core/src/cache_header.rs:22-66 | magic, version, sizes, serial, journal position and record count stand at bytes 0 to 48 of the file, lowest byte first |
| `CacheLayout.HeaderPoints` | crates/core/src/cache_header.rs:22-66 | the sizes and offsets of the columns stand at bytes 56 to 104 |
| `CacheLayout.BeginsWithMagic` | crates/core/src/cache_header.rs:10-11 | the file begins with the letters EZSEARCH |
| `CacheLayout.RecordsLayout` | crates/core/src/record.rs:31-48 | row k stands at byte 112 + 24 k, its fields at 0, 8, 12, 16, 18, 20 and 22 |
| `CacheLayout.OffsetsLayout` | crates/core/src/cache.rs:130-176 | the child table stands behind rows and names, four bytes for each entry |
| `CacheLayout.TableLayout` | crates/core/src/cache.rs:340-350 | the lookup table is a count of four bytes and pairs of eight and four |
| `CacheLayout.FirstHeaderFault` | crates/core/src/cache.rs:236-252 | of a file with any bytes at all, the first fault of the header is the one reported |
| `CacheLayout.SectionsAcceptedIff` | crates/core/src/cache.rs:252-336 | with a good header it is read if and only if its sections lie inside it, in order, and the table holds its pairs |
| `Cache.CacheRoundTrip` | crates/core/src/cache.rs:130-379 | reading a written file gives back columns, cursor, journal id and all lookups, or rejects another volume's serial |
| `CacheLimits.BuiltFileFits` | crates/core/src/builder.rs:37-67 | the size limits of the builder keep every column, offset and length within its field of the file |
| `CacheLimits.BuiltCacheRoundTrip` | crates/core/src/cache.rs:130-379 | so every index that the builder finishes reads back from its cache file |
| `CacheLimits.EventsKeepValues` | crates/core/src/index.rs:1129-1207 | events with machine-sized values keep every value of the index machine-sized |
| `CacheLimits.CompactedCacheRoundTrip` | crates/engine/src/lib.rs:790-815 | so the file that a compaction writes reads back as the compacted index, whatever index it compacted, unless the builder refused it |
| `Cache.EncodeFileRefMap` | crates/core/src/cache.rs:340-350 | the loop writes count and pairs |
| `Cache.DecodeFileRefMap` | crates/core/src/cache.rs:352-379 | reads them back, or reports truncation |
| `Cache.WriteCache` | crates/core/src/cache.rs:130-176 | appends the sections in file order |
| `Cache.ReadSections` | crates/core/src/cache.rs:255-336 | cuts and decodes the sections, first fault first |
| `Bytes.CollectRows` | crates/core/src/cache.rs:51-61 | reads whole rows one after the other |
| `Reload.RestartRestoresTree` | crates/core/src/cache.rs:194-234 | an index with an empty overlay comes back with its tree and its journal position |
| `Reload.RestartRestoresIffNothingChanged` | crates/engine/src/lib.rs:809-815 | written with an overlay, the cache restores the drive if and only if the events since left the plain tree as it was |
| `Reload.RestartIsSafeWhenEmpty` | crates/engine/src/lib.rs:809-815 | an index whose overlay is empty when it is written always comes back |
| `Reload.RestartRestoresIffNoEntryShows` | crates/engine/src/lib.rs:809-815 | otherwise it does if and only if no base row is deleted for good, renamed or moved to something else, and no overlay record is new or different |
| `Reload.RestartLosesNewEvent` | crates/engine/src/lib.rs:809-815 | so a create or delete since the last compaction is lost |
| `TreeMetrics.SharesAddUp` | crates/mft/src/tree_metrics.rs:82-89 | the shares of all links of a stream add up to the stream |
| `TreeMetrics.ShareIsFair` | crates/mft/src/tree_metrics.rs:82-118 | the share of a link lies between two floors, counted backwards; shares differ by at most one byte, and a link out of range takes the smallest |
| `TreeMetrics.SharesAddUpIffDivides` | crates/mft/src/tree_metrics.rs:82-89 | for several links they do so if and only if the stream times the links stays below 64 bits |
| `TreeMetrics.SharesWrap` | crates/mft/src/tree_metrics.rs:82-89 | a stream of 2^54 bytes under 1024 links loses part of its size |
| `TreeMetrics.SharesAddUpOnNtfs` | crates/mft/src/tree_metrics.rs:82-89 | up to 2^53 bytes and 1024 links, the limits of NTFS, the shares always add up |
| `LinkConservation.FollowedAsEntered` | crates/mft/src/tree_metrics.rs:466-505 | an entry is followed as often as its directory is entered |
| `LinkConservation.FollowedOnce` | crates/mft/src/tree_metrics.rs:383-505 | in a tree of directories no entry is followed twice |
| `LinkConservation.EachNameOnce` | crates/mft/src/tree_metrics.rs:383-505 | each name of a reached record is followed exactly once |
| `LinkConservation.HardLinkConservation` | crates/mft/src/tree_metrics.rs:323-505 | the root propagates the counted streams of every reached record, each counted once |
| `CompressedStreams.RecordCounts` | crates/mft/src/tree_metrics.rs:296-377 | what a record counts is the length of all its streams less what it leaves out as compressed |
| `CompressedStreams.CompressedLeavesOut` | crates/mft/src/tree_metrics.rs:276-315 | a file with tag 0x80000017 leaves out the first stream named WofCompressedData on its chain, and any other record nothing |
| `CompressedStreams.RootCountsStreams` | crates/mft/src/tree_metrics.rs:289-505 | so the root propagates, for every reached record, all of its streams once, and of a compressed file not the compressed one |
| `StreamCounts.RootPrintsDescendants` | crates/mft/src/tree_metrics.rs:466-528 | the root prints as descendants itself and, for every record below it, each stream once for each name |
| `StreamCounts.FilePrintsDefaultStream` | crates/mft/src/tree_metrics.rs:508-528 | a file prints its default stream and no descendants |
| `TreeTraversals.TreeTraversal.FindWofStream` | crates/mft/src/tree_metrics.rs:276-287 | finds the first stream with the compression name on the chain, for records with the compression tag |
| `TreeTraversals.TreeTraversal.AccumulateOwnStreams` | crates/mft/src/tree_metrics.rs:323-377 | walking the stream chains sums the shares of all own streams, saturating |
| `TreeTraversals.TreeTraversal.Preprocess` | crates/mft/src/tree_metrics.rs:383-444 | marks and prints the subtree and returns its saturated length and stream count |
| `TreeTraversals.TreeTraversal.AggregateChildren` | crates/mft/src/tree_metrics.rs:466-505 | walks the child chain and sums what the children return |
| `TreeTraversals.TreeTraversal.SweepOrphans` | crates/mft/src/tree_metrics.rs:260-270 | visits every record that is still unseen |
| `TreeTraversals.TreeTraversal.Run` | crates/mft/src/tree_metrics.rs:229-245 | visits the records reached from the root, or all with the sweep, and each visited record prints its subtree's sums |
| `TreeTraversals.RootPrintsEverything` | crates/mft/src/tree_metrics.rs:508-528 | the root prints everything below it, each record once, and its own default stream |

## Left out

- `Session.SessionCoherence`: asks that each query contain, both folded, the query whose snapshot it reuses, because Unicode folding breaks the law otherwise; `SessionLimits.ReuseSafeIffFoldContains` shows that the condition is exact.
- `Session.SearchSession.SearchFor`: the cancellation token is read once, at the last check of the query.
- `Refinement.EventsRefine`: asks that each event be well-formed where it comes; `BatchOrder.ReorderedRefines` and `BatchOrder.SettledBatchRefines` cover batches in another order.
- `BatchOrder.AnyOrderDoesIffUnmet`: covers batches with one event for each record number, as a poll emits them.
- `Protocol.EveryRunIsSafe`: asks that no commit or batch cross a reinstallation, because the revision restarts there (`Crossings` and `StaleRuns` say what happens then), and that a poll bring a batch that the drive's tree can take and that leads to the volume's tree in the order in which it comes. Batches that lose a move or create a live number are outside; `Crossings.BatchIsSafeIff` shows that they never keep the drive sound. A poll that recovers from a reclaimed journal range (crates/engine/src/usn_source.rs:50-92) skips events and is outside too.
- `Protocol.ApplyIsSafe`: asks the same of its batch.
- `Protocol.StepIsSafe`: asks the same of its step.
- `Protocol.InstallIsSafe`: asks that an installed index mirror the volume at its cursor. The program can miss that: a cached cursor that is too old is advanced past unread events (crates/engine/src/drive_manager.rs:434-447), and the journal head is read after the file table (crates/engine/src/drive_manager.rs:471-489).
- `Ranking.CandidateScanKeepsTop`: asks that every selected path resolves, as the program drops the others after selecting.
- `Ranking.DirectSearchKeepsTop`: asks the same, and covers queries of three characters or more; `Results.SearchKeepsTop` covers all.
- `DriveRanking.SearchAllDirectKeepsTop`: covers queries of three characters or more; `DriveAnswers.AllDirectKeepsTop` covers all.
- `DriveRanking.RoutesAgree`: covers queries of three characters or more.
- `DriveRanking.BothRoutesKeepTop`: covers queries of three characters or more.
- `Drives.DriveManager.SearchCandidateSets`: cancellation between drives is not modelled.
- `Drives.DriveManager.Search`: covers no cancellation.
- `IndexObject.EsIndex.Children`: the cancellation exits of its loops are not modelled.
- `IndexObject.EsIndex.SearchCandidateIds`: the cancellation exits of its scans are not modelled.
- `IndexObject.EsIndex.LookUp`: the cancelled outcome is not modelled.
- `IndexObject.EsIndex.ListBelow`: the cancellation exit of its loop is not modelled.
- `IndexObject.EsIndex.EnumeratePath`: cancellation is not modelled.
- `IndexObject.EsIndex.Search`: cancellation is not modelled.
- `Builder.EsIndexBuilder.Finish`: the prefix buckets are a function of the columns (`ShortQueries.BucketsOf`) rather than one of them.
- `LinkConservation.HardLinkConservation`: covers the length channel; the allocated channel, reserved clusters and the merge of compressed allocation are not modelled.
- `TreeTraversals.TreeTraversal.AccumulateOwnStreams`: sums lengths; the allocated channel is not modelled.
- `TreeTraversals.TreeTraversal.Preprocess`: chains are taken to end and stay in range, as the parser guarantees; printed values are kept beside the records rather than in them; the allocated channel and the merge of compressed allocation are not modelled.
- `TreeTraversals.TreeTraversal.AggregateChildren`: the allocated channel, depth and reserved clusters are not modelled.
- `TreeTraversals.RootPrintsEverything`: the printed allocated size is not modelled.
- `CompressedStreams.RootCountsStreams`: covers the length channel, and streams small enough for their shares to add up.
- `SessionAnswers.LongQueryAnswers`: asks, as `Session.SessionCoherence` does, that queries contain what they reuse.
- `Listings.RecursiveListing`: ties between equal points fall as the sort lets them.
- `Cache.CacheRoundTrip`: covers files that the program wrote; of other files `CacheLayout.FirstHeaderFault` and `CacheLayout.SectionsAcceptedIff` say which are read, not what a damaged file that is read shows.
- `DraftOrder.BuildFromDrafts`: of drafts with one record number the first is found, where the program's search in a sorted table may find any; picking drafts out of the raw file table is not modelled.
- Tie-breaking by path depth, length and lower-cased path: the sorts are functions of their list.
- Counters (revision, generation, rows) do not wrap, and file positions are unbounded integers.
- An index is held by value inside a drive, since no other owner shares it; locks and the gate's exchange are single steps of the protocol.
- Drive letters reach the protocol in upper case, as the manager stores them.
- Windows volume, journal and threading calls, encryption, compression, keys, file renaming, the daemon's copy of the manager, plugins and the user interface are not part of this model.
