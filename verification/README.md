# Forkstate in Dafny

Forkstate forks a chain without copying it. An environment is an overlay of its own writes over an
immutable parent chain, plus the blocks it has mined; each block owns a journal of the values it
replaced. Several server processes may hold the same environment in memory, and all of them share one
stored row for it. This project models that system in Dafny 4.11 and proves what it promises.
`dafny verify dfyconfig.toml` checks everything.

Code that changes things step by step is a class, or a method with loops, here too. Each is proved
against a function on plain values, so that the theorems below can speak of whole runs.

## What is modelled

| files | of the system |
|---|---|
| `Common`, `Overlays`, `Logs`, `Chains`, `Environments` | the overlay, journals, the chain with its indices, environments, snapshots, restore |
| `TimeTravel`, `Rewinds`, `Readings`, `Clocks`, `Reverts`, `Filters` | past blocks, reads over head syncs, the clock and the headers of blocks, `evm_revert`, filters and subscriptions, over whole runs |
| `Replicas`, `Lineages`, `Acknowledgements`, `Refusals`, `Retries`, `Restores`, `CleanCopies`, `Clusters` | processes loading, changing and writing one row by compare-and-set |
| `WriteQueues` | the queue that keeps writes to one environment apart and in order |
| `ForkStates`, `Executions`, `Bundles`, `BundleResults`, `StateManagers` | read-through caches under nested checkpoints, calls, bundles |
| `HexNumbers`, `Abi`, `Bundlers`, `UserOperations`, `Layouts`, `SeveralOperations`, `Reencodings` | user operations to EntryPoint calldata and back |
| `Bytecode`, `Assemblers`, `LabelledPrograms`, `Simulations` | the two-pass assembler and what its output does |
| `PartRuns`, `Evms`, `Oracles`, `OracleInstructions`, `OracleRuns`, `OracleAnswers`, `PriceFeeds`, `FeedAnswers` | the code of an overridden price feed, the life of an override, and the price it answers |
| `Limits`, `Meters` | token buckets, usage accounting |
| `UpstreamCaches`, `Evictions`, `EvictionOrder`, `Flushes` | the parents' answers all environments share, which of them make room, what a failed flush leaves of them, and what a good one stores |

The EVM is a parameter wherever it runs: an arbitrary well-nested sequence of reads, writes and frames
for the caches, an arbitrary meaning of each instruction for the assembler. Only the price feed's code is
run on a small EVM of the opcodes it uses. Clocks, hashes, what the parent answers, and whether a write to
a store succeeds are parameters as well.

## What turned out otherwise than promised

- `evm_revert` rolls back to the fork height plus the number of blocks the snapshot had
  (src/environment.ts:1465), which is the snapshot's height only while no head sync has followed a block.
  `RevertIsInverseIff` says exactly when a revert undoes everything;
  `SyncThenSnapshotKeepsLaterBlock` and `SnapshotThenSyncLosesBlock` are two cases where it does not.
- Restoring an environment keeps every field if and only if each account of the overlay has both its
  balance and its nonce or neither (`RestoredKeepsFields`). The code always writes the two together.
- The overlay keeps what a frame wrote even when the frame fails (src/environment.ts:486-522), so it can
  part from the live state; `OverlayFollowsLiveIff` says when, `RevertedFrameStaysInOverlay` shows a case.
- A head sync by timer persists outside the write queue (src/manager.ts:115-126). Beside a request on the
  same copy it can store the request's work while the caller is told 409 (`HeadSyncStoresARefused`).
  `RefusedIsStoredIff` says exactly when, over every run: a head sync of the request's own process sent the
  copy to the store after the request ran on it and before the answer, and the store took it. So where that
  process follows no head, a 409 is true, whatever the others do (`RefusedIsNowhere`).
- A snapshot restore is written against the revision just loaded from the store, where the comment says
  the revision this process holds (src/manager.ts:260-281). The model does what the code does.
- The parent cache is keyed by host alone (src/state-manager.ts:48). Two providers on one host that answer
  differently are told each other's values (`SharedHostIsToldWrong`); every hit of every run is right if and
  only if any two questions with one key get one answer (`TransparentIff`).
- A comment has a failed flush lose nothing, memory still holding all it was to write
  (src/upstream-cache.ts:106-107). Over every run, a key of the failed batch is hot if and only if it was
  not evicted for good, or was set again since the batch set out (`FailedFlushKeepsIff`), and then, where
  the cache is transparent, with its batched value (`FailedFlushKeepsBatchedIff`). While every put finds
  room in memory nothing is lost (`NothingLostWhileThereIsRoom`). More keys than memory are not needed to
  lose one: putting a key already held evicts another when memory is full (`SecondSetForgetsTheOther`). The
  next read of a lost one goes to the parent, which is slower and still right.
- A user operation comes back from its calldata field by field, save that in the packed versions a
  paymaster's two gas limits share half a word each: it does if and only if both fit 128 bits
  (`OperationSurvivesCalldata`).
- The decoded form of a user operation makes the same calldata again except when a packed operation has
  init code or paymaster data without a non-zero address, or paymaster data without both gas limits
  (`SameCalldataAgainIff`).
- `setPrice` keeps the original in the shadow before it asks the feed, so a call that fails later has
  already written the shadow (src/oracle.ts:151-160). Nothing reads it until an override is in place.

## Model

| member | source | states |
|---|---|---|
| Overlays.EntryRoundTrip | src/environment.ts:1953-1964 | a journal entry read back by `undo` names the address and field it was noted for, so no two places share an entry |
| Overlays.PutGet | src/environment.ts:553-563 | storing a value changes the one place it was stored at |
| Overlays.UndoGet | src/environment.ts:1953-1964 | undoing one entry puts its before-value back at its own place, absence included, and nowhere else |
| Overlays.UndoJournal | src/environment.ts:1404-1406 | the entries of one journal, undone in any order, leave each place its before-value and every other place alone |
| Overlays.UndoAll | src/environment.ts:1403-1406 | undoing a list of journals in order leaves at each place what undoing that place alone would |
| Logs.LogMatchesMeaning | src/logs.ts:26-44 | a log matches iff its address is wanted and every position that asks for something has a topic there, one of those listed if any are |
| Chains.HeightOnlyRises | src/chain.ts:168-188 | mining raises the height and the fork point only moves up, so only a rollback lowers it |
| Chains.AddSound | src/chain.ts:208-223 | adding a block that fits keeps numbers rising, hashes distinct and the stored transactions exactly the blocks' |
| Chains.AddJournalled | src/chain.ts:208-223 | with a journal for every block above `historyFrom`, mining hands the pending one over and `historyFrom` moves by one iff 1024 were held |
| Chains.RollbackSound | src/chain.ts:231-239 | a rollback leaves a prefix of the blocks with their own transactions, and never raises the height |
| Chains.RestoreExport | src/chain.ts:241-266 | a chain restored from its export is the same chain, insertion orders included, so later lookups and pruning agree |
| Chains.RestoredWithoutHistory | src/chain.ts:254-266 | a chain stored without history starts one at its height, with nothing noted |
| Chains.IndexPush | src/chain.ts:208-212 | after a push the two block maps still answer what a search of the list would |
| Chains.IndexPop | src/chain.ts:231-238 | deleting by hash and by number is right because no other block has either |
| Chains.Chain.constructor | src/chain.ts:102-105 | a new chain is empty, its history starting at the fork height |
| Chains.Chain.Note | src/chain.ts:118-120 | only the first change of a place in a block is noted |
| Chains.Chain.JournalsAfter | src/chain.ts:123-130 | the loop collects the pending journal and then those of the later blocks, newest first |
| Chains.Chain.ResetHistory | src/chain.ts:145-149 | the history is replaced whole, and starts at the height when none is given |
| Chains.Chain.AdvanceForkTo | src/chain.ts:179-188 | refused at or below the height; else the fork point moves and history restarts there |
| Chains.Chain.GetBlockByNumber | src/chain.ts:194-197 | finds what a search of the block list by number finds |
| Chains.Chain.GetBlockByHash | src/chain.ts:194-197 | finds what a search of the block list by hash finds |
| Chains.Chain.GetTx | src/chain.ts:199-201 | finds a transaction iff some block here lists it, and it names that block |
| Chains.Chain.Add | src/chain.ts:208-223 | the block, its transactions and its journal are stored, all three indices agree, journals are pruned |
| Chains.Chain.PruneJournals | src/chain.ts:217-222 | the loop keeps at most 1024 journals, dropping the oldest first |
| Chains.Chain.RollbackTo | src/chain.ts:231-239 | the loop pops blocks while the height is above the target; the indices still agree |
| Chains.Chain.Export | src/chain.ts:241-252 | the export holds the blocks, the transactions in stored order and the history |
| Chains.Chain.FromExport | src/chain.ts:254-266 | the rebuilt chain is the exported value, with indices that agree |
| Environments.RestoredKeepsFields | src/environment.ts:1929-1936 | replaying an overlay through the setters keeps every field iff each account has both balance and nonce or neither |
| Environments.RecordAgain | src/environment.ts:565-577 | writing a value already there changes neither the overlay nor the journal |
| Environments.FilledInIs | src/environment.ts:1548-1559 | the replay notes exactly the balances and nonces the overlay lacked for its accounts |
| Environments.Environment.Remember | src/environment.ts:569-577 | the value replaced is noted unless it is the one being written, and never while suppressed |
| Environments.Environment.Track | src/environment.ts:553-563 | the overlay takes the value and the version moves, unless suppressed |
| Environments.Environment.PutAccount | src/environment.ts:503-515 | an account is written whole, noted field by field, and only while recording; the version moves exactly then |
| Environments.Environment.PutField | src/environment.ts:486-501 | code and slots are recorded while recording, and a value filled in from the parent never is |
| Environments.Environment.SetBalance | src/environment.ts:579-586 | sets the balance; while recording the account is written whole, with the nonce the live state has, which is given; nothing while suppressed |
| Environments.Environment.SetNonce | src/environment.ts:588-595 | sets the nonce; while recording the account is written whole, with the balance the live state has, which is given; nothing while suppressed |
| Environments.Environment.SetField | src/environment.ts:597-612 | noting and storing again after the wrapped write leaves one recorded write, and none while suppressed |
| Environments.Environment.MineBlock | src/environment.ts:1300-1322 | a block one above the height owns the pending journal, and the version moves |
| Environments.Environment.At | src/environment.ts:1399-1406 | the loops over the later journals give, at every place, the value left once each is undone |
| Environments.Environment.Snapshot | src/environment.ts:1442-1450 | the overlay, the chain's export and the clock are kept under the next id |
| Environments.Environment.Revert | src/environment.ts:1452-1478 | false and no change for an unknown id; else later snapshots go, state and chain are put back, and the overlay is replayed; the version moves iff the snapshot had written accounts |
| Environments.Environment.SyncToHead | src/environment.ts:1494-1510 | moves the fork iff the head is above both the fork block and the height, then replays the overlay and moves the version |
| Environments.Environment.Restore | src/environment.ts:1918-1949 | the environment rebuilt from a row has the replayed overlay, no snapshots, and the stored blocks, or an empty chain with nothing noted when the row has none |
| Environments.Environment.ReapplyOverlay | src/environment.ts:1548-1560 | the loop over accounts fills in balance and nonce from the parent and notes just those |
| TimeTravel.RecordAt | src/environment.ts:569-577 | a recorded write changes nothing that undoing to any earlier block gives |
| TimeTravel.MineAt | src/environment.ts:1300-1322 | mining keeps every past answer that pruning leaves, and the new block's is the overlay itself |
| TimeTravel.StepKeeps | src/environment.ts:1399-1406 | writes, blocks, clocks, snapshots, valid reverts, head syncs and restarts each keep the journals equal to full copies |
| TimeTravel.TimeTravelExact | src/environment.ts:1399-1406 | after any run, undoing to any block from `historyFrom` to the height gives, field by field, the copy of the overlay taken when it was added or history was reset |
| TimeTravel.RollbackStops | src/environment.ts:1465 | the rollback leaves exactly the snapshot's blocks iff its target separates the last kept from the first dropped |
| Rewinds.AlwaysPaired | src/environment.ts:503-515 | over any run every copy of the overlay has an account's balance exactly when it has its nonce |
| Rewinds.RewoundEnvironmentReads | src/environment.ts:1399-1416 | after any run, the environment rebuilt at a past block reads every place as it was then, and through to the parent where nothing was written |
| Rewinds.KeptPastIsRight | src/environment.ts:1399-1401 | over any run in which neither version nor fork block has moved since, the kept past environment is the one that would be rebuilt now, reverts to empty snapshots included |
| Readings.SyncReads | src/environment.ts:1494-1510 | a head sync that advances moves the fork to the head, and each place then reads its value in the overlay of before, else the parent's at the head; one that does not changes nothing |
| Readings.SyncIsRead | src/environment.ts:1494-1510 | over every run, that stays so through blocks, snapshots and restarts until the place is written, a snapshot is put back or the fork moves again |
| Readings.ReadStays | src/environment.ts:528-549 | over every run, a place nothing writes, reverts or syncs reads the same from one step to another |
| Readings.WriteIsRead | src/environment.ts:1487-1492 | over every run, a value written reads back as written, head syncs included, until the place is written again or a snapshot is put back |
| Readings.UntouchedReadsThrough | src/environment.ts:1548-1560 | over every run, a place nothing has touched reads the parent's value at the fork block |
| Clocks.BlocksAreChained | src/environment.ts:1254-1310 | over every run, reverts, head syncs and restarts included, a block mined at the offset clock's time or the last block's, whichever is later, is never earlier than the one before it, and names that one's hash |
| Clocks.BlocksAreCounted | src/environment.ts:1321 | over every run, the stored block count is that of the blocks there are, here and in every snapshot |
| Clocks.ClockIs | src/environment.ts:1358-1364 | over every run, the clock is ahead by just the seconds it was moved since it last started, which it does anew at a restart |
| Reverts.RemembersRun | src/environment.ts:1442-1460 | a snapshot and the older ones stay as they were taken until a revert passes them |
| Reverts.ContiguousRun | src/environment.ts:1494-1510 | block numbers run straight up from the fork point as long as no head sync follows a block |
| Reverts.RevertIsInverse | src/environment.ts:1452-1478 | after any run with no head sync after a block, a revert restores blocks, transactions, journals, history, clock, every read, and leaves exactly the older snapshots |
| Reverts.RevertIsInverseIff | src/environment.ts:1452-1478 | over every run a revert does that iff the fork point has not moved since and the fork height plus the number of blocks separates the last kept block from the first dropped |
| Reverts.RevertRestoresBlocksIff | src/environment.ts:1465 | in every reachable state the snapshot's blocks come back iff the rollback's target separates them from what follows |
| Reverts.SyncThenSnapshotKeepsLaterBlock | src/environment.ts:1465 | a run (block, head sync, snapshot, block) whose revert does not restore the snapshot |
| Reverts.SnapshotThenSyncLosesBlock | src/environment.ts:1465 | a run (block, snapshot, head sync) whose revert leaves no block, though the snapshot has one |
| Filters.PolledExactlyOnce | src/environment.ts:1809-1832 | after any run without rollback the polls together are the blocks mined since, in order and without repeats, and the matching logs a subscription was pushed |
| Filters.NoRepeats | src/environment.ts:1824-1829 | no block hash is reported twice by a block filter |
| Filters.MatchingIs | src/environment.ts:1846-1860 | what is found among some logs is those that match, each once, in their order |
| Filters.BetweenJoins | src/environment.ts:1846-1860 | a search of transactions one after another finds what it finds in the first and then in the rest, and in one transaction what matches if its number is in range |
| Filters.PushedJoins | src/ws-server.ts:199-220 | so does what a subscription is pushed for a block, over all its transactions |
| Filters.FilterBook.NewFilter | src/environment.ts:1809-1813 | a filter starts at the present height under a fresh id |
| Filters.FilterBook.GetFilterChanges | src/environment.ts:1816-1832 | a poll answers for the numbers after the last one up to the height and moves the cursor there; an unknown id changes nothing |
| Filters.FilterBook.GetLogs | src/environment.ts:1846-1860 | the matching logs of the stored transactions in the range, in stored order |
| Filters.LogSubscription.OnBlock | src/ws-server.ts:199-220 | a log subscription is pushed the block's matching logs, in order |
| Lineages.LineageKept | src/manager.ts:433-477 | each step of any process keeps copies and pending writes built on the row of their revision, and at most one unheard stored write per copy |
| Lineages.LineageHolds | src/backend.ts:335-353 | so in every interleaving each row extends the one before it, restores aside |
| Lineages.RowsOnlyAppended | src/backend.ts:335-353 | no stored content is ever rewritten |
| Lineages.NoLostUpdate | src/manager.ts:433-477 | in every interleaving of any number of processes, what was stored at one revision is in every later row up to the next restore |
| Lineages.RestorePutsBack | src/manager.ts:269-286 | a restore stores a content that was stored before, and nothing else |
| Restores.SnapshotHolds | src/manager.ts:234-250 | over every run, the snapshot of number n, counted from the steps, holds the row that stood when it was taken |
| Restores.RestoreStoresTheSnapshot | src/manager.ts:269-281 | over every run, when a restore of snapshot n meets the store it appends the row that stood when the run took its nth snapshot, if nothing was stored since it read the row back, and else stores nothing |
| Restores.RestoreDropsTheCopy | src/manager.ts:281-283 | over every run, once a restore that won is heard it is answered 200 and its process has no copy until it installs one |
| Restores.NextRequestIsBuiltOnTheRow | src/manager.ts:260-268 | over every run, a request started after that finds no copy and installs the row as it stood when it asked, which up to the next restore extends what was put back |
| Restores.RestoreIsAnsweredIff | src/server.ts:214-222 | over every run, a restore is answered 200 iff its write won |
| CleanCopies.CleanIsSkippedIff | src/manager.ts:446-477 | over every run, a job that persists its live copy sends a write out unless the last write of the copy heard of set out with all the copy holds now; then a request is answered 200 at once and nothing is stored |
| Acknowledgements.CarriedHolds | src/server.ts:307-340 | until its answer, a request that changed something has its operation in its copy, its write or a row |
| Acknowledgements.AcknowledgedIsStored | src/server.ts:334-340 | a request answered 200 that changed something has its operation in a stored row, then and ever after |
| Acknowledgements.DispatchedIsStored | src/server.ts:334-337 | a block sent to the alerts is in a stored row |
| Acknowledgements.DispatchedIff | src/server.ts:334-340 | over every run, a request's blocks are sent to the alerts iff it is answered 200 |
| Refusals.RefusedIsStoredIff | src/server.ts:341-358 | over every run of any number of processes, head syncs included, a request answered 409 has its operation in a row iff a head sync of its own process sent the copy out after the request ran and before its answer, and won |
| Refusals.AfterReply | src/manager.ts:446-472 | once a request is answered 409, no process ever serves the copy it changed again |
| Refusals.RefusedIsNowhere | src/server.ts:341-358 | where the request's own process follows no head, a 409 is true: its operation is in no row, then or ever after |
| Refusals.HeadSyncStoresARefused | src/manager.ts:115-126 | a run in which a head sync stores the operation of a request answered 409 |
| Retries.LeftAloneIsAnswered | src/server.ts:300-358 | in whatever order its own steps come, a request with nothing else moving is answered within seven: 200 and stored on top iff its process had no copy or a current one, else 409 with nothing stored and the copy dropped |
| Retries.SentAgainIsStored | src/server.ts:346-357 | over every such schedule, a refused request sent again is answered 200 and stored on top of everything stored by then |
| Clusters.Cluster.Submit | src/server.ts:307-307 | a request joins its process's queue |
| Clusters.Cluster.Start | src/manager.ts:165-167 | the live copy is taken if there is one, inside the queue |
| Clusters.Cluster.Load | src/manager.ts:169-170 | a miss reads the row with its revision |
| Clusters.Cluster.Install | src/manager.ts:172-182 | the copy rebuilt replaces whatever is live by then |
| Clusters.Cluster.Run | src/server.ts:321-326 | the request runs on the copy it holds, and a change moves its version |
| Clusters.Cluster.Persist | src/manager.ts:446-464 | refused if the copy that ran is no longer live, skipped if clean, else its content sets out with its revision |
| Clusters.Cluster.SaveEnvironment | src/backend.ts:335-353 | the row is replaced iff it is at the writer's revision |
| Clusters.Cluster.CompareAndSet | src/manager.ts:452-464 | a write on its way meets the store, which takes it or does not; the process has yet to hear |
| Clusters.Cluster.Hear | src/manager.ts:466-476 | a writer told no drops the live copy and refuses, one told yes moves its copy's revision and cleans it at the version written; a restore that won drops the live copy, one that lost only refuses |
| Clusters.Cluster.Reload | src/manager.ts:196-201 | a snapshot keeps the row read back after persisting; a restore takes its revision |
| Clusters.Cluster.Finish | src/server.ts:334-340 | the reply ends the job, lets the queue go on, and only a good one dispatches blocks |
| ForkStates.Exec | src/state-manager.ts:111-126 | however frames nest and end, each of the three caches ends at the depth it began |
| ForkStates.HexReads | src/environment.ts:506-507 | a balance or nonce kept as text reads back as the number it was, with no leading zero |
| Executions.LayersRefineFlat | src/state-manager.ts:100-148 | the layered caches, filled on read, answer every balance, nonce, code and slot as one flat state where a failed frame never happened |
| Executions.OnlyTheTopMoves | src/state-manager.ts:124-148 | a run changes only the top layers, and, unrecorded, neither overlay, journal nor version |
| Executions.VersionCountsWrites | src/environment.ts:486-523 | a recorded run moves the version by the number of its writes, those of failed frames included, and any other run leaves it |
| Executions.CallLeavesNoTrace | src/environment.ts:617-652 | overrides and any program inside `call` leave the whole state, caches included, as it was |
| Executions.BaseDepth | src/state-manager.ts:111-123 | under the inherited commit storage and code caches end deeper by one for every frame that ended well |
| Executions.BaseCommitDrifts | src/state-manager.ts:111-123 | so after a call the caches are at one depth iff no frame ended well |
| Executions.BaseCommitLeaksAWrite | src/state-manager.ts:119-122 | and then a call can change a slot: the case the override was written for |
| Executions.OverlayKeepsEveryWrite | src/environment.ts:486-522 | after a recorded run the overlay reads as the flat state in which no write is ever taken back |
| Executions.OverlayFollowsLiveIff | src/environment.ts:486-522 | so it reads as the live state iff, at every place written, the last word written is that of a frame that stood, or what was there before |
| Executions.OverlayFollowsLive | src/environment.ts:486-522 | in particular where no frame that wrote is reverted |
| Executions.RevertedFrameStaysInOverlay | src/environment.ts:486-496 | a failed frame that wrote a new word leaves it in the overlay |
| Bundles.OneRefines | src/environment.ts:751-876 | one simulated transaction on the caches is one on the flat state: all of it, its nonce alone, or nothing |
| Bundles.StartsWhereEarlierLeft | src/environment.ts:733-737 | transaction i starts on the state all earlier ones left |
| Bundles.ResultRefines | src/environment.ts:733-737 | result i is what transaction i gets on that state |
| Bundles.BundleIsSequentialFold | src/environment.ts:710-748 | results keep input order, each from the state the earlier ones left; gas is their sum; failed iff some status is 0 |
| Bundles.BundleLeavesNoTrace | src/environment.ts:722-747 | the state after a bundle is the state before it |
| Bundles.SkippedContributesNothing | src/environment.ts:778-822 | a refused or throwing transaction might as well not be in the bundle |
| Bundles.RevertedLeavesOnlyTheNonce | src/environment.ts:830-851 | run on the caches, a reverted transaction leaves every account, code and slot as it was but its sender's next nonce, and status 0 |
| Bundles.FailedIff | src/environment.ts:741 | the bundle failed iff some result has status 0 |
| BundleResults.EachResult | src/environment.ts:750-876 | result i, told from its request, its outcome and the sender's balance on the state the earlier ones left: status 1 iff the value and both gas minimums are covered and the run ended well; no error iff status 1, else which one, with its numbers; the least fair charge, 0 iff it did not run to an end, where the intrinsic gas is positive |
| BundleResults.FailedExactly | src/environment.ts:738-742 | the bundle failed iff some transaction could not pay, lacked gas, threw or reverted on the state the earlier ones left |
| BundleResults.GasIsLeast | src/environment.ts:855-856 | what is charged is the least that covers the floor, takes off no more than the refund and no more than a fifth of what was spent |
| BundleResults.TotalAdds | src/environment.ts:730-740 | the total of a bundle is the sum of its results' gas, whichever way the results are split |
| BundleResults.RefusedBundleIff | src/environment.ts:713-720 | a bundle is refused, and why, iff it is empty or holds more than 64 transactions |
| BundleResults.TransactionLeaves | src/environment.ts:793-851 | every later read on the caches after one transaction: unchanged unless it ran to an end, its sender's next nonce if it reverted, all its writes with that nonce if it succeeded |
| Bundles.GasIsFair | src/environment.ts:1243-1250 | a transaction is never charged under the floor, and a refund takes off exactly itself up to a fifth of what was spent |
| StateManagers.ForkStateManager.GetAccount | src/state-manager.ts:72-98 | a cached account, else the parent's, filled into the top layer |
| StateManagers.ForkStateManager.GetCode | src/state-manager.ts:100-109 | cached code, else the parent's, filled in without being recorded |
| StateManagers.ForkStateManager.GetStorage | src/state-manager.ts:128-148 | a cached slot, else the parent's, filled in through `putStorage` and not recorded |
| StateManagers.ForkStateManager.PutStorage | src/environment.ts:486-501 | a write is recorded and a fill is not, told apart by `filling` |
| StateManagers.ForkStateManager.PutAccount | src/environment.ts:503-515 | the write is recorded while recording, and reaches the cache either way |
| StateManagers.ForkStateManager.PutCode | src/environment.ts:517-523 | the write is recorded while recording, and reaches the cache either way |
| StateManagers.ForkStateManager.Commit | src/state-manager.ts:124-126 | all three caches fold their top layer |
| StateManagers.ForkStateManager.Run | src/state-manager.ts:100-148 | a program of nested frames run on the caches is its meaning on values |
| StateManagers.ForkStateManager.Call | src/environment.ts:617-652 | the caches, overlay, journal and version are what they were |
| StateManagers.ForkStateManager.SimulateOne | src/environment.ts:751-876 | the state and the result are those of one transaction on values, refusals in the order the code finds them |
| StateManagers.ForkStateManager.RunBundle | src/environment.ts:729-742 | the loop leaves the fold's state, results in order, their gas summed, failed iff one failed |
| StateManagers.ForkStateManager.SimulateBundle | src/environment.ts:710-748 | the answer is the sequential fold's, errors for an empty or oversized bundle included, and the state is unchanged |
| WriteQueues.InvHolds | src/write-queue.ts:35-46 | in every reachable state work is chained onto the submission before it and the map holds each environment's last |
| WriteQueues.OneAtATime | src/write-queue.ts:35-46 | at most one piece of work for an environment is running |
| WriteQueues.StartsInSubmissionOrder | src/write-queue.ts:35-39 | work for an environment starts in the order submitted, after failures too |
| WriteQueues.NeverOvertakes | src/write-queue.ts:35-39 | and not before everything submitted earlier for it has settled |
| WriteQueues.NeverBlocked | src/write-queue.ts:35-46 | an environment with work outstanding has some running or free to start, whatever the others do |
| WriteQueues.InTheMapIff | src/write-queue.ts:40-44 | an environment is in the map iff its last submission is not tidied away, and then nothing is outstanding |
| WriteQueues.OutcomeIsItsOwn | src/write-queue.ts:36-45 | over every run, work is reported ended well or badly iff that is how it itself ended |
| WriteQueues.WriteQueue.Submit | src/write-queue.ts:35-39 | the work is chained onto the tail in the map and its own tail put there |
| WriteQueues.WriteQueue.Start | src/write-queue.ts:36 | work may begin once what it was chained onto has settled, well or badly |
| WriteQueues.WriteQueue.Tidy | src/write-queue.ts:42-44 | the map entry goes only if it is still this tail |
| Limits.RateLimiter.Take | src/limits.ts:64-82 | grants iff the refilled bucket covers the cost, takes it only then, and else says how long to wait |
| Limits.RateLimiter.Forget | src/limits.ts:85-87 | one key's bucket goes |
| Limits.RateLimiter.Sweep | src/limits.ts:95-101 | the loop drops exactly the buckets old enough to be full |
| Limits.SoundHolds | src/limits.ts:64-82 | over every run with a clock that does not go back, tokens stay between none and the burst |
| Limits.GrantedIsPaidFor | src/limits.ts:64-82 | what is granted and what is left never exceed what there was and what the rate adds |
| Limits.GrantedIff | src/limits.ts:64-82 | a take is granted iff nothing is limited or the cost is within the burst and the tokens kept plus the rate times the seconds since cover it |
| Limits.WindowBound | src/limits.ts:64-82 | in any window of any run a key is granted at most the burst plus the rate times its seconds |
| Limits.RefusalsAndSweepsAreInvisible | src/limits.ts:73-101 | leaving any refused takes and sweeps out of a run changes no answer that remains |
| Limits.WaitIsExact | src/limits.ts:77 | the time to wait is enough, and a whole millisecond less is not |
| Limits.RetryAfterIsExact | src/limits.ts:73-78 | a refused take within the burst, repeated after its `retryAfter` with no grant between, is accepted, and a millisecond earlier it is not |
| Limits.ExpiredIff | src/limits.ts:97-99 | a bucket is old enough to sweep iff refilling alone would by now have filled it from empty |
| Limits.SweepDropsIff | src/limits.ts:95-101 | a sweep drops those buckets and no other |
| Limits.ForgottenStartsOver | src/limits.ts:84-87 | what a key is told once it was forgotten is what a new key is told, whatever was done before or for other keys |
| Meters.UsageIsConserved | src/meter.ts:105-135 | per environment, day and counter, what was counted is what the sink took, what is pending and what is in flight, over any interleaving |
| Meters.MidnightIsThatDay | src/meter.ts:41 | a day's midnight falls in that day, so a failed batch goes back where it came from |
| Meters.FlushSinksEverything | src/meter.ts:105-117 | over every run, a flush begun while none is under way can be written if anything is counted, and once written the sink has exactly what was counted up to its beginning |
| Meters.Meter.Request | src/meter.ts:66-68 | a batch of calls is counted under the day it came |
| Meters.Meter.Miss | src/meter.ts:71-73 | one miss is counted |
| Meters.Meter.Forward | src/meter.ts:76-78 | one forwarded call is counted |
| Meters.Meter.BeginFlush | src/meter.ts:105-110 | one batch at a time leaves the pending counts |
| Meters.Meter.EndFlush | src/meter.ts:112-133 | a batch written is the sink's; one that failed is added back to what was counted meanwhile |
| UpstreamCaches.KeysInjective | src/upstream-cache.ts:53-55 | two questions share a key iff they differ in nothing but the case of address and slot |
| Texts.LowerEqualIff | src/upstream-cache.ts:53-55 | lower-casing makes two texts one iff they differ in nothing but the case of their letters |
| UpstreamCaches.InvHolds | src/upstream-cache.ts:57-127 | over any interleaving every entry, in memory, pending, in flight or stored, is the parent's, and memory stays within its bound |
| UpstreamCaches.CacheIsTransparent | src/upstream-cache.ts:57-127 | every hit is what the asker's own provider answers, through evictions and flushes that succeed or fail |
| UpstreamCaches.TransparentIff | src/upstream-cache.ts:53-127 | from an empty cache, every hit of every run is what the asker's own provider answers iff any two questions with one key get one answer |
| UpstreamCaches.SharedHostIsToldWrong | src/state-manager.ts:48 | two providers on one host that answer differently: the second is told what the first said |
| UpstreamCaches.UpstreamCache.Remember | src/upstream-cache.ts:121-127 | the oldest entry makes room when memory is full |
| UpstreamCaches.UpstreamCache.Get | src/upstream-cache.ts:57-75 | memory, then pending, then the backend, whose answer is remembered; hits and misses are counted |
| UpstreamCaches.UpstreamCache.Set | src/upstream-cache.ts:77-89 | remembered, and queued for the backend if there is one; a flush is due at 64 |
| UpstreamCaches.UpstreamCache.BeginFlush | src/upstream-cache.ts:100-102 | the pending rows become the batch on its way |
| UpstreamCaches.UpstreamCache.EndFlush | src/upstream-cache.ts:103-109 | a batch that fails is dropped and one that succeeds is stored |
| UpstreamCaches.UpstreamCache.ReadThrough | src/state-manager.ts:72-84 | a read through the cache is a direct read of the provider, hit or miss |
| Evictions.InMemoryIff | src/upstream-cache.ts:121-127 | over every run from an empty cache, a key is in memory iff it was put there and has not been evicted for good |
| Evictions.MemoryHolds | src/upstream-cache.ts:121-127 | and it has a value there iff the last put of the key put that value and no eviction followed |
| Evictions.PendingHolds | src/upstream-cache.ts:77-102 | a value is buffered for a key iff the last `set` of the key gave it and no flush has begun since |
| Evictions.FailedFlushKeepsIff | src/upstream-cache.ts:103-109 | over every run ending in a failed flush, a key of its batch is hot iff it was not evicted for good or was set again since the batch set out |
| Evictions.FailedFlushKeepsValueIff | src/upstream-cache.ts:103-109 | and with its batched value iff its last standing put, or else its last `set` since, gave that value |
| Evictions.FailedFlushKeepsBatchedIff | src/upstream-cache.ts:103-109 | where no host serves two chains, it is hot with its batched value in exactly those cases |
| Evictions.NothingLostWhileThereIsRoom | src/upstream-cache.ts:121-127 | while every `set` and every answer found room in memory, each key ever put is hot with its last value |
| Evictions.SecondSetForgetsTheOther | src/upstream-cache.ts:121-127 | with room for two, two keys, the second set twice: a failed flush leaves the first nowhere |
| EvictionOrder.KeysInOrder | src/upstream-cache.ts:121-127 | over every run from an empty cache, memory lists its entries in the order they came in; putting one again does not move it, unless it was the oldest of a full memory |
| EvictionOrder.EvictedIsOldest | src/upstream-cache.ts:121-127 | over every run, what is evicted came in before everything else that is there |
| Flushes.StoredHolds | src/upstream-cache.ts:100-104 | over every run from an empty cache, the backend has a value for a key iff the last flush that ended well with the key in its batch carried it, as the last `set` before that flush began gave it |
| Flushes.FlushedIsAnswered | src/upstream-cache.ts:64-71 | over every run, once a key's last `set` has been flushed well the backend answers that value, whatever memory has dropped and however later flushes end |
| Abi.EncodeTuple | src/bundler.ts:86-100 | the loop lays out heads and tails, and fails iff some bytes are half a byte short |
| Abi.HeadReads | src/bundler.ts:86-104 | wherever the tuple stands, each head word reads back: the word, or the offset of its tail |
| Abi.BytesRead | src/bundler.ts:86-109 | and each dynamic member's bytes read back through its head |
| HexNumbers.HalvesOfJoin | src/bundler.ts:203-204 | a packed word splits back into its high and low halves |
| HexNumbers.PadRestores | src/bundler.ts:79-83 | digits read as a number and padded to their width are the same digits |
| Bundlers.DecodeOps | src/bundler.ts:183-227 | the loop reads as many operations as the array says, each at its offset |
| UserOperations.StructReads | src/bundler.ts:147-180 | every member of the struct reads back where the preamble leaves it |
| UserOperations.OneOperation | src/bundler.ts:174-191 | the calldata reads as one operation, standing after the preamble |
| UserOperations.DecodesToParts | src/bundler.ts:174-227 | for every operation in range, in each version, its calldata decodes to its parts as a decoder cuts them |
| UserOperations.FactoryComesBack | src/bundler.ts:128-134 | a factory given comes back with its data, field by field |
| UserOperations.PaymasterComesBackIff | src/bundler.ts:136-144 | a paymaster given comes back with its data and both gas limits iff each limit fits 128 bits |
| UserOperations.OperationSurvivesCalldata | src/bundler.ts:174-227 | for every operation in range, its calldata decodes to that operation, field by field as the client gave it, iff version 0.6 or the limits of a given paymaster fit 128 bits |
| Layouts.HandleOpsLayout | src/bundler.ts:146-180 | for every operation in range, in each version: the selector, the offset of the operations, the beneficiary's address, one operation and its offset, then each of the operation's own fields in its member's place, bytes with their length and zeros up to a word, and whole words in all |
| Layouts.EncodesIff | src/bundler.ts:111-172 | an operation can be encoded iff the fields its struct takes are readable, its addresses are twenty bytes and no bytes end on half a byte |
| SeveralOperations.SeveralDecode | src/bundler.ts:183-227 | where a struct stands at each offset of an array of any length, the decoder reads as many operations, and each as that struct's |
| Reencodings.InitCodeReads | src/bundler.ts:128-134 | the init code a decoded operation makes: none for the zero factory, an error for a short one |
| Reencodings.PaymasterReads | src/bundler.ts:136-144 | the paymaster data a decoded operation makes, gas limits at full width |
| Reencodings.CalldataTellsApart | src/bundler.ts:174-180 | equal calldata holds equal init code and paymaster data |
| Reencodings.SameCalldataAgainIff | src/bundler.ts:128-227 | the decoded form makes the same calldata iff version 0.6, or init code and paymaster data are each empty or whole with a non-zero address |
| Bytecode.LandsOn | src/oracle.ts:48-63 | a jump may land at a place iff an instruction read in order stands there and is a JUMPDEST |
| Assemblers.PlaceLabels | src/oracle.ts:49-55 | the first pass finds for every label the byte offset where it lands, the last of two of one name |
| Assemblers.Assemble | src/oracle.ts:48-63 | the text of each part in order, a jump holding its label's address; fails iff some jump has no label |
| Assemblers.TextIsCode | src/oracle.ts:56-62 | below 65537 bytes that text is the hex of the bytecode, each address in two bytes |
| LabelledPrograms.CodeParses | src/oracle.ts:48-63 | read from the start, the bytecode's instructions are the program's items one for one |
| LabelledPrograms.JumpHoldsItsLabel | src/oracle.ts:56-62 | each PUSH2 holds the offset of its label's JUMPDEST, an instruction boundary where a jump may land |
| LabelledPrograms.LandingsAreLabels | src/oracle.ts:58 | where no fragment has a JUMPDEST, a jump may land on the labels and nowhere else |
| Simulations.CodeRunsAsWritten | src/oracle.ts:48-63 | whatever the instructions mean, the bytecode does step for step what the labelled program does, stops with it, and faults with it where labels are the only landing places |
| Oracles.OracleAssembles | src/oracle.ts:66-108 | for every answer, round and shadow the parts are ones the assembler may be given, and land only on labels |
| OracleAnswers.GetsRound | src/oracle.ts:98-100 | the overridden round is answered and any other asked of the original |
| OracleAnswers.Dispatches | src/oracle.ts:73-78 | a call is sent to the label of its selector, and to `delegate` if there is none |
| OracleAnswers.OracleAnswers | src/oracle.ts:66-108 | run from its first byte, the generated bytecode answers the five price questions with the chosen answer, round and time, and passes every other call to the original and its answer or revert back |
| PriceFeeds.Environment.SetPrice | src/oracle.ts:142-162 | each outcome of the call, and the code everywhere after it, also when it fails half way |
| PriceFeeds.Environment.ResetPrice | src/oracle.ts:165-170 | false and no change if not overridden; else the shadow's code is put back |
| PriceFeeds.ShadowHoldsTheOriginal | src/oracle.ts:142-170 | over any run of sets, resets and deployments, the feed is marked iff overridden, and then its shadow holds its last own code |
| PriceFeeds.ResetRestores | src/oracle.ts:165-170 | a reset leaves the feed its own code |
| PriceFeeds.RoundIsKept | src/oracle.ts:153-157 | over any run, an override of an overridden feed keeps its round id, read from the run of the code in force, and the first is one past what the feed said |
| PriceFeeds.OverriddenSaysItsRound | src/oracle.ts:66-108 | asked for its latest round, an overridden feed says the override's, which is where the round is kept from |
| PriceFeeds.WhatItSaysIsItsRound | src/oracle.ts:155-157 | whatever running an overridden feed's code on `latestRoundData()` is heard to say begins with the override's round |
| FeedAnswers.WordIs | src/oracle.ts:36-38 | the word of a number is 64 digits holding its remainder by two to the 256th, and reads back as itself to a reader of signed words if it fits one |
| FeedAnswers.EndsAs | src/oracle.ts:145-161 | each way a set can end, as an iff on the feed's code, its decimals, its latest round and the price; one that succeeds returns the price read |
| FeedAnswers.PriceIsAnswered | src/oracle.ts:159-161 | over every run, from a set that succeeded until the feed gets other code: running its code on `latestAnswer()` says just one word, the price read, in two's complement |
| FeedAnswers.RoundDataHoldsThePrice | src/oracle.ts:155-161 | over every run, on `latestRoundData()` it says that price in the second word, and in the first one past the feed's round if it was not overridden before |
| FeedAnswers.EveryCallIsAnswered | src/oracle.ts:66-108 | over every run, from a set that succeeded until the feed gets other code, its code ends on every call in just one way: the five questions with the round, the price read and the time, any other call or round with what the original returns or reverts with |
| FeedAnswers.RefusedSetChangesNothing | src/oracle.ts:145-159 | over every run, a set refused for whichever reason leaves the feed its code and the override in force |

## Left out

- Environments: hashes are the numbers their digits write, so the case of a hash and the block hash filled into receipts later do not appear; blocks and transactions keep only the fields something here depends on.
- Environments: addresses and slots come as the normalisers leave them, and `setCode` takes its text as the wrapped write spells it.
- Environments: the live state beside the overlay; where `SetBalance` and `SetNonce` read the other number from it, that number is given.
- Environments: deleting accounts, clearing storage, changing the chain id, impersonation, traces, state diffs and block shaping.
- Environments: the time and parent hash a block is mined with are given; `Clocks` says what they are in a run.
- Environments: what `exportUpTo` leaves out of the rebuilt chain; the rebuilt environment is modelled by its overlay.
- TimeTravel: reads that run beside a write on one environment; each operation is one step.
- TimeTravel.TimeTravelExact: a revert in the run must stop at its snapshot's blocks, because one that does not breaks the chain itself; `RevertIsInverseIff` says when it does.
- ForkStates: an EVM run that throws with inner frames still open, and the `state` override, which the code refuses.
- Bundles: what the EVM did for each transaction is given, and so are its gas bounds; the traces and diffs a bundle can carry are not modelled.
- Replicas: creating, cloning, deleting, evicting and suspending an environment, and exceptions from the store, after which nothing is known about the write.
- Replicas: the socket's queued write path is the HTTP one with another way to reply, and a request that throws is answered 500 and claims nothing.
- Limits: times and tokens are exact reals, so floating-point rounding is not modelled; the clock does not go back.
- Meters: the sink takes a batch whole or not at all; days are numbers, not their text; the live count for a caller and the flush listener.
- UpstreamCaches: lower-casing covers the characters addresses and slots are written in; timers that start a flush; a read asks the backend and takes its answer in one step.
- Abi: lengths are exact; where the decoder turns a word into a double above 2 to the 53rd, the model does not lose digits.
- Bundlers: hashes of operations, signatures, gas estimates and the EntryPoint's own refusals.
- Assemblers: fragments are whole bytes; the source would also take half a byte.
- Evms: gas, the stack limit, the program counter, and shifts by other than whole hex digits, none of which the generated code depends on.
- PriceFeeds: reading a price from text and the name of a shadow from its feed; both are parameters.
- Chains.Chain.Add: a block whose transactions have hashes stored before, which the source would overwrite in its map; hashes are taken to be fresh.
- Environments.Environment.MineBlock: the same, for the block it adds.
- PriceFeeds.Environment.SetPrice: what a feed that is not overridden answers, its decimals and the reading of the price are given; only the code of an override is run.
- HTTP, sockets, SQL, migrations, alert delivery, verification of contracts, the explorer and start-up.
