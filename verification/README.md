# Sequins, modelled and proved in Dafny

Sequins serves immutable, versioned key/value datasets from a cluster. This project models the parts of it
that hold its hard promises and proves those promises for every input, every run or every reachable state:

* **Versions** (`Multiplexer`, `Removals`, `Lifecycle`, `LifecycleInvariant`, `LifecycleTheorems`, `LifecycleLeaks`,
  `LifecycleProgress`, `LifecycleOvertaken`, `LifecycleWitness`): backfill, refresh, switch, upgrade and removal of the versions of one database, interleaved with requests.
  The multiplexer is a class whose methods are proved against value-level functions; the protocol is a step
  relation of 31 steps over those same functions, with one joint inductive invariant.
* **Ingest and storage** (`Hashcode`, `Blocks`, `BlockStore`, `BlockTheorems`, `Ingest`, `Build`, `Node`): the
  hash and partition arithmetic, the block store with its pruning, save, revert and reload, the early-exit
  scan, the build, and the life of one node's copy of a dataset over failed builds, retries and restarts.
* **Availability** (`Latch`, `ZkNames`, `Partitions`, `Peers`, `Cluster`): which partitions are available, the
  latch that opens when all are, node names in ZooKeeper, selection over the ring, and what a whole cluster
  with a common view arrives at.
* **Serving** (`Proxy`, `Serving`): the staged proxy loop with its attempts, channel and timers as one state
  machine, and the answer to a request that is passed on to peers.
* **Locks and the znode tree** (`BuildLocks`, `Znodes`).

Objects that the source updates in place are classes; each of their methods is proved equal to a function on
values (`View()` before and after), and the theorems are about runs of those functions.

## Assumptions

* A region under a lock is one atomic step. A wait group is a natural number, and going below zero is the panic
  that it is in Go. The clock is a natural number; a timer may fire from its deadline on.
* The backend lists versions in strictly increasing order, only names after the one given, and does not lose
  versions during a run (`backend/backend.go:15-19`).
* A Sparkey file is a byte map in which the last put of a key wins. The random block identifier is a parameter
  that names no file yet. Go's unspecified map order is an arbitrary enumeration.
* The hash ring is any function of the set of members that returns min(n, size) distinct members. `rand.Perm`
  is any permutation.
* `Save` either completes or fails as a whole.
* Partition counts and numbers are unbounded naturals; hash codes are 32-bit words with wrap-around.

## Where code and comments differ

The model follows the code.

* The comment on pathological keys names hashes within 31 of zero, the guard only covers those near the top of
  the range (`blocks/hashcode.go:66-68`, `blocks/hashcode.go:80`). `AlternateLaw` gives the exact condition.
* `remove` is documented to wait until the reference count drops to zero (`version_mux.go:191-193`), but after
  the delete from the map a release no longer finds the counter (`version_mux.go:155`, `version_mux.go:229`).
  `ReferenceOutstandingAtDelete` is a run where that matters and `RemoveReturnsIffNoneOutstanding` the exact
  condition.
* `remove` is documented as idempotent (`version_mux.go:196-197`), but the flag is set on a copy
  (`version_mux.go:204-206`). `BothCanReturn` is a run in which two calls return the same version, `GuardIff` and
  `BothPassIff` say exactly when the guard alone holds; `ReturnedAtMostOnce` holds because of `cleanupLock`.
* `remove` is documented to let a version go only after it was unused for the full timeout, unless told not to wait
  (`version_mux.go:188-191`), and `upgrade` tells it to wait for the version just replaced (`db.go:202-203`). When
  the replacing version is itself replaced before that removal begins, a second removal that does not wait is
  queued as well (`db.go:204-205`) and may go first: `RemovedWithoutWaiting` is such a run, and
  `PreviousIsWaitedFor` holds as long as the replacing version is current.
* `Save` leaves compression and block size out of the manifest (`blocks/block_store.go:123-128`).
  `RoundTripIff` gives the exact condition for an unchanged round trip.
* The scan accepts a key by its alternate partition while the store files it under its normal one
  (`build.go:151-152`, `blocks/block_store.go:76`), and a node that holds either answers finally
  (`serve.go:24-31`). `LocalMissIff` says exactly for which keys this loses a value that the dataset has.
* A partition that a node holds but that has no keys is an error for `Get` (`blocks/block_store.go:161-163`),
  so an absent key is a 500 there (`AbsentKeyAnswer`), and a proxied request that finds only such holders ends
  in 502 without trying the alternate partition. `BadGatewayIff` says for which datasets that can happen to a
  key that the dataset has, and `BadGatewayPossibleIff` to which keys.
* After a restart a node takes for local only what the last manifest selects (`version.go:105-110`), although the
  store still has everything saved before. `AnswerSurvivesRestartIff` says exactly which answers change.
* The scan assumes that 5000 keys of one partition make a file of one partition (`build.go:143-146`).
  `LosingStream` is a file from which that loses a key, `HeuristicHarmlessIff` says for which files and wanted
  partitions the early exit makes a difference, and `SafeIff` for which files it never loses a key.

## Model

| member | source | states |
|---|---|---|
| `LifecycleInvariant.StepKeeps` | db.go:42-232 | every one of the 31 steps, from any state that satisfies it, keeps the joint invariant over the name map, current version, counts, outstanding references, pending upgrades, queued and running removals |
| `LifecycleInvariant.RunInvariant` | db.go:42-232 | the invariant holds at every moment of every run |
| `LifecycleTheorems.NeverPanics` | version_mux.go:163-246 | in no interleaving does `prepare`, `mustGet` or a wait group panic |
| `LifecycleTheorems.ClosedVersionsAreUnreferenced` | db.go:212-232 | from the moment a version is closed and deleted to the end of the run, no client holds it, it is not in the map, and it is strictly older than the current one |
| `LifecycleTheorems.ReturnedAtMostOnce` | version_mux.go:188-235 | over a whole run `remove` returns each version object at most once |
| `LifecycleTheorems.CurrentRollsForward` | db.go:171-208 | between any two moments of a run the current version's name does not decrease, and there is always one once there was |
| `LifecycleProgress.UpgradeSwitches` | db.go:184-207 | in every run, an upgrade to a version that is not older than the current one makes it the current one; an upgrade to an older one leaves the current one and queues the older one's removal |
| `LifecycleProgress.AtRestNothingIsNewer` | db.go:133-208 | whenever no upgrade is under way and no ready version waits for one, no ready version ever prepared is newer than the current one |
| `LifecycleProgress.ReadyCanUpgrade` | db.go:163-176 | as long as a ready version waits and no upgrade is under way, its upgrade can begin |
| `LifecycleOvertaken.UpgradeRuns` | db.go:174-208 | from every reachable state without an upgrade under way, one to a ready, waiting version that is not older than the current one can run to its end: it is then current, and the removal of each older version is queued, with waiting for the one it replaced |
| `LifecycleProgress.RequestsAreServed` | version_mux.go:63-130 | in every run a request gets the version current at that moment, a proxied one the version it names if prepared, and in both cases one that is not closed and whose count goes up by one |
| `LifecycleProgress.RefreshFindsNewest` | db.go:87-109 | a refresh goes for the newest name of the backend, strictly newer than what was current when it looked, and has nothing to do only if no name is newer |
| `LifecycleProgress.BackfillStopsAtReady` | db.go:58-80 | whatever is prepared after backfill met a version that is ready at once, at any time in the run, is newer than that version |
| `LifecycleTheorems.NamesArePreparedOnce` | db.go:87-128 | no name is prepared twice in a run, also not after its removal |
| `LifecycleTheorems.CountIsFrozen` | version_mux.go:147-158 | no step changes the count of a version that is out of the map or puts its name back |
| `LifecycleTheorems.DeleteFreezesCount` | version_mux.go:188-235 | at every moment after the delete step the count is the number of references outstanding at that step |
| `LifecycleTheorems.RemoveReturnsIffNoneOutstanding` | version_mux.go:228-234 | if no reference was outstanding at the delete step, `remove` has returned or can return at once at every later moment; otherwise it never returns in the rest of the run, even after all clients released |
| `LifecycleWitness.ReferenceOutstandingAtDelete` | version_mux.go:215-233 | a concrete run of 16 steps whose last step deletes a version under an outstanding reference |
| `LifecycleTheorems.SwitchNeedsLatch` | db.go:145-196 | the current version changes only in `upgrade`, only to a version whose partition latch is closed and that was not cancelled |
| `LifecycleTheorems.CurrentWasCovered` | version.go:73-89 | whenever a version is current, at a strictly earlier moment of the run each of its partitions was local or listed by a peer |
| `LifecycleTheorems.CancelledNeverCurrent` | version.go:79-87 | a version closed through `cancel`, which also closes `ready`, is never the current one |
| `LifecycleTheorems.UnusedForTheWholeTimeout` | version_mux.go:188-226 | when a removal's timer fires, every hand-out of the version happened at least the full timeout earlier |
| `LifecycleProgress.PreviousIsWaitedFor` | db.go:199-207 | in a cluster a version that was current leaves the map only after the timer of its removal fired, provided the version that replaced it is still current |
| `LifecycleOvertaken.RemovedWithoutWaiting` | db.go:199-207 | without that proviso it need not: a run in which the first of three versions is current, is replaced by the second and that by the third, and is deleted with no timer ever fired |
| `LifecycleProgress.AloneNothingWaits` | db.go:218-222 | outside a cluster no removal arms a timer or waits for one |
| `LifecycleLeaks.StepNoLeak` | db.go:171-232 | every step keeps that each outdated version in the map is tended to, and that only the removal under way has marked an entry |
| `LifecycleLeaks.NothingLeaks` | db.go:199-207 | at every moment of every run each version in the map that is older than the current one has an upgrade waiting or under way that will drop it, is still to be swept, is queued for removal or is being removed |
| `LifecycleLeaks.AtRestNothingIsOutdated` | db.go:171-232 | whenever upgrades and removals have come to rest, no version in the map is older than the current one |
| `Removals.GuardIff` | version_mux.go:198-230 | for every interleaving of any number of `remove` calls without an outer lock, a call gets past the guard if and only if no call has armed or deleted before it looks |
| `Removals.BothPassIff` | version_mux.go:198-230 | for every interleaving of two calls, both get past the guard if and only if the second looks before the first has armed, if that one waits, or deleted, if it does not |
| `Removals.ReturnersPassed` | version_mux.go:209-234 | every call that returns the version looked before anyone armed or deleted |
| `Removals.BothCanReturn` | version_mux.go:196-234 | for every prepared, unused version there is a run of two calls that both return it |
| `Multiplexer.VersionMux.constructor` | version_mux.go:46-60 | a new multiplexer is empty, with ten minutes unless overridden |
| `Multiplexer.VersionMux.GetCurrent` | version_mux.go:99-112 | hands out the current version, counts it once and restarts its timer, and changes nothing else |
| `Multiplexer.VersionMux.GetVersion` | version_mux.go:117-130 | the same by name, or nothing for an unknown name |
| `Multiplexer.VersionMux.Release` | version_mux.go:147-158 | one less on the count found by name through the map; nothing for nil or an unknown name; panics exactly if that count is zero |
| `Multiplexer.VersionMux.Prepare` | version_mux.go:163-175 | panics exactly if the name is there; otherwise files the version with a zero count |
| `Multiplexer.VersionMux.Upgrade` | version_mux.go:180-186 | panics exactly if the map has no such version or another object by that name; otherwise makes it current |
| `Multiplexer.VersionMux.RemoveBegin` | version_mux.go:199-213 | the first region of `remove` leaves the multiplexer as it is and yields a marked copy of the entry, or nothing |
| `Multiplexer.VersionMux.RemoveStartTimer` | version_mux.go:217-222 | the second region writes the marked copy back with a timer |
| `Multiplexer.VersionMux.RemoveFromMap` | version_mux.go:228-230 | the third region deletes the name and leaves all counts |
| `Hashcode.HashCode` | blocks/hashcode.go:6-13 | the wrapping loop computes the closed-form sum that the Java SE API specifies for `String.hashCode`, truncated to 32 bits once |
| `Hashcode.KeyPartition` | blocks/hashcode.go:19-29 | the normal partition is the unbounded Java sum modulo 2^31 modulo P, and the alternate one that of the laws below |
| `Hashcode.NormalClosedForm` | blocks/hashcode.go:19-21 | the same of the specification, with neither truncation nor masking |
| `Hashcode.PartitionsDifferIff` | blocks/hashcode.go:19-29 | the two partitions of a key differ if and only if its hash is one of the 31 largest words and P does not divide 2^31 |
| `Hashcode.KnownHashes` | blocks/hashcode_test.go:12-16 | two hashes that Java gives, one of which wraps around |
| `Hashcode.KnownPartitions` | blocks/hashcode_test.go:64-66 | a key with two partitions out of 20 |
| `Hashcode.AlternateLaw` | blocks/hashcode.go:31-87 | for every hash and every number of partitions P, the alternate partition is the Cascading tuple partition minus 31 modulo P if and only if the hash is outside -31..-1 or P divides 2^31 |
| `Hashcode.PathologicalUndoesTuple` | blocks/hashcode.go:79-83 | on the guarded range the rotation undoes the tuple's shift for every P |
| `Hashcode.GapUndoesTupleIff` | blocks/hashcode.go:66-86 | on -31..-1, which the guard leaves out, the law holds exactly when P divides 2^31 |
| `Hashcode.GroupedKeysShareAlternate` | blocks/hashcode.go:64-76 | two keys that Cascading puts into one partition have the same alternate partition if and only if P divides 2^31 or both or neither hash into -31..-1 |
| `Hashcode.HashIsOnto` | blocks/hashcode.go:6-13 | every 32-bit word is the hash of some key |
| `Hashcode.WrongAlternateExistsIff` | blocks/hashcode.go:79-87 | some key has a wrong alternate partition exactly when P does not divide 2^31 |
| `BlockTheorems.PutKeepsOk` | blocks/block_writer.go:52-68 | after any put the recorded minimum and maximum are keys of the block and bound all of them |
| `Bytes.LessIff` | blocks/block_writer.go:56-65 | keys and names compare as in a dictionary: a proper prefix first, otherwise the first different byte decides |
| `BlockTheorems.PruningHidesNothing` | blocks/block.go:53-64 | in a well-formed block a lookup with range pruning is the lookup in the file |
| `BlockTheorems.IndexIsSubsequence` | blocks/block_store.go:60-69 | each entry of the block map is the subsequence of the block list with that partition, in order |
| `BlockTheorems.PartitionSearch` | blocks/block_store.go:165-186 | searching the blocks of a partition in order finds exactly what the earliest block with the key holds, and nothing for keys of other partitions |
| `BlockTheorems.GetAgrees` | blocks/block_store.go:156-189 | a lookup is that of a plain map: the value, not found, or partition not found exactly when neither partition has a saved key |
| `BlockTheorems.SecondPassFindsNothing` | blocks/block_store.go:176-186 | the pass over the alternate partition never finds anything |
| `BlockTheorems.AddRefines` | blocks/block_store.go:75-95 | an add is a last-wins put into the pending part of the plain map |
| `BlockTheorems.FlushOk` | blocks/block_store.go:103-114 | flushing in any order leaves nothing pending, loses nothing, and lets earlier epochs win |
| `BlockTheorems.SaveRefines` | blocks/block_store.go:99-136 | a save merges the pending part below what is saved, and the manifest describes the blocks |
| `BlockTheorems.RevertRefines` | blocks/block_store.go:141-152 | a revert drops the pending part and its files, and nothing saved |
| `BlockTheorems.ReloadRestores` | blocks/block_store.go:50-72 | loading the manifest restores block list, index, partition count, selection and every lookup |
| `BlockTheorems.RoundTripIff` | blocks/block_store.go:116-136 | the reloaded store equals the saved one exactly when nothing was pending, the compression was Snappy and the block size 0 |
| `BlockTheorems.RestartRefines` | version.go:94-115 | a restart keeps what is saved, whether or not there is a manifest |
| `BlockTheorems.LoadOutcome` | blocks/manifest.go:32-69 | for every directory, whoever wrote it: which error loading gives, and otherwise the blocks, index and settings; no selection means all partitions, no compression means Snappy |
| `BlockTheorems.RestartWithoutManifest` | version.go:96-103 | a directory that cannot be loaded leaves the new process with an empty store of the configured kind |
| `BlockTheorems.RunAgreesWithPlainMap` | blocks/block_store.go:75-189 | after every sequence of add, save, revert and restart from an empty directory, every lookup agrees with the plain map in which the earliest saved epoch wins and the last put wins within an epoch |
| `BlockStores.BlockWriter.Add` | blocks/block_writer.go:52-68 | count, minimum, maximum and content after a put, as the specification has them |
| `BlockStores.BlockWriter.Save` | blocks/block_writer.go:70-99 | the saved block has what was written, and its file exists |
| `BlockStores.BlockStore.Add` | blocks/block_store.go:75-95 | the store and directory after an add; a block is started only for a partition without one |
| `BlockStores.BlockStore.Save` | blocks/block_store.go:99-136 | the store, directory and manifest after a save, for the order in which the map was visited |
| `BlockStores.BlockStore.Revert` | blocks/block_store.go:141-152 | the store and directory after a revert |
| `BlockStores.BlockStore.Get` | blocks/block_store.go:156-189 | the nested loops compute the specified lookup and change nothing |
| `BlockStores.Open` | blocks/block_store.go:50-72 | loading from a manifest, with each of its errors |
| `Ingest.EarlyExitIff` | build.go:125-177 | for every stream, the scan stops early if and only if the first key's partition is unwanted and a prefix of records that all fit it has at least 5002 with it as normal partition; then nothing of the file was added; otherwise it is the full scan |
| `Ingest.HeuristicHarmlessIff` | build.go:143-172 | for every stream, the early exit changes what is added if and only if the stream settles on an unwanted partition and then, before any unreadable record, has one that does not fit and from there on one of a wanted partition |
| `Ingest.LosingStream` | build.go:143-172 | 5002 records of an unwanted partition and one of a wanted one: nothing is added, the full scan adds the key |
| `Ingest.CanLoseIff` | build.go:143-172 | such streams exist exactly for more than one partition |
| `Ingest.FileAddsExactly` | build.go:125-183 | from every stream on which it does not fail, the scan adds exactly the keys taken for a wanted partition, unless it stops early |
| `Ingest.SafeIff` | build.go:143-172 | a stream is safe, that is, does not settle or has only records of the partition it settles on, if and only if no choice of wanted partitions makes the scan lose a key taken for one of them |
| `Ingest.CleanScan` | build.go:143-172 | on a cleanly partitioned stream the scan adds exactly what the full scan adds: all records or none |
| `Ingest.ShortFileNeverExits` | build.go:161-169 | a file of fewer than 5002 records is never left early |
| `Ingest.TakenWhenHeld` | build.go:147-159 | a record is taken for one of its key's two partitions, and for the normal one if the other is no key's normal partition |
| `Ingest.SafeScanAddsTaken` | build.go:125-183 | from a safe file the scan adds exactly the keys taken for a wanted partition |
| `Ingest.CleanIsSafe` | build.go:143-172 | clean files and files of fewer than 5002 records are safe |
| `Ingest.ScanFilesSound` | build.go:76-97 | every pair added comes from the dataset |
| `Ingest.ScanFilesAddExactly` | build.go:76-97 | for all files, a pass adds exactly the keys that some file it does not leave early takes for a wanted partition |
| `Ingest.FinishedForOne` | build.go:76-97 | a pass that does not fail for several partitions does not fail for any one of them |
| `Ingest.AddFileKeys` | build.go:125-183 | the loop ends as the specified scan does, and the store has exactly the scan's pairs added in order |
| `Ingest.CountsAreAdds` | blocks/block_writer.go:52-54 | the count of each pending block is the number of pairs added to its partition |
| `Builds.AddFile` | build.go:99-123 | the file's scan goes into the store, and is an error only if the scan fails; a file left early counts as done |
| `Builds.AddFiles` | build.go:76-97 | the outcome is an error, a cancellation or done exactly according to the files before the cancellation; the store has exactly those files' pairs, and is saved only when done |
| `Builds.Version.Load` | build.go:58-67 | the files are scanned and saved, or what was added is reverted |
| `Builds.Version.Build` | build.go:21-72 | a finished or unneeded build changes nothing; otherwise the outcome is that of the files, a successful build makes exactly the needed partitions local, so that all selected ones are, and any other leaves local and saved data as they were |
| `Builds.LoadIsNodeEvent` | build.go:21-72 | whatever a load does is an event of the node's life below, with the same store and local partitions |
| `Node.LifeOk` | build.go:21-72 | for all files and over every life of failed builds, retries, successes, restarts and processes killed while loading, the saved keys are exactly those that some successful build added, with dataset values, and local partitions were loaded |
| `Node.FailureKeeps` | build.go:58-67 | a failed build leaves the node exactly as it was, store and directory included |
| `Node.RevertUndoes` | blocks/block_store.go:141-152 | a revert after any adds since the last save gives back the store and the directory as they were |
| `Node.LookupExact` | blocks/block_store.go:156-189 | for all files and at every moment, a lookup finds a key if and only if some successful build added it: a file that it did not leave early takes the key for a partition that it loaded |
| `Node.SafeLookupExact` | blocks/block_store.go:156-189 | with safe files, if and only if some record with the key was taken for a partition that was ever loaded |
| `Node.UnavailableExact` | blocks/block_store.go:160-163 | for all files, a lookup says that the partition is missing if and only if no build added a key of either partition |
| `Node.LocalLookupFindsDatasetKeys` | serve.go:24-31 | with safe files, a node that has both partitions of a dataset key local finds one of the dataset's values for it; in particular if the two are equal |
| `Node.LookupsAreSound` | serve.go:24-31 | for all files, a lookup never yields a value that the dataset does not have for the key |
| `Node.SuccessKeeps` | build.go:63-71 | a successful build keeps the invariant and makes selected a subset of local |
| `Node.RestartKeeps` | version.go:94-115 | the invariant survives a restart from the manifest for any new selection, also after a process that was killed in the middle of a load and left its blocks behind |
| `Node.RestartExact` | version.go:94-115 | in every life, after every restart the local partitions are exactly those selected by the last build that loaded something, the new selection applies, nothing counts as built, and every lookup gives what it gave before |
| `Node.AnswerSurvivesRestartIff` | version.go:105-110 | a key that was a 200 before a restart is the same 200 after it if one of its partitions was selected by that build, and is passed on to peers otherwise |
| `Node.RestartKeepsAnswers` | version.go:94-115 | if the selection never changes, no restart changes any answer |
| `Node.PassedOnIff` | serve.go:23-36 | at every moment of every life a request is passed on if and only if it was not before and neither partition is local; one passed on before is then a 500; with a local partition it does not matter who asks |
| `Node.EmptyVersionAnswer` | serve.go:17-21 | a version without files is a 404 for every key |
| `Node.AbsentKeyAnswer` | serve.go:16-37 | for all files, at a node with either partition, a key that is not in the dataset is a 404 exactly when one of its partitions has a saved key, and a 500 otherwise |
| `Node.DatasetKeyAnswer` | serve.go:16-37 | with safe files, a dataset key whose partitions are local is a 200 with one of its values, proxied or not |
| `Node.LocalMissIff` | serve.go:24-31 | for every key and partition count: some node holding only the key's normal partition misses a value of some dataset exactly when the two partitions differ and the other is some key's normal one; holding only the alternate, exactly when they differ |
| `Serving.Shuffle` | serve.go:123-131 | each element goes where the permutation says |
| `Serving.ShuffledPeers` | serve.go:123-131 | shuffling distinct peers gives the same peers, distinct |
| `Serving.HolderAnswer` | serve.go:16-37 | a holder of one of a key's partitions answers 200 only for dataset keys, and with safe files exactly if the key was taken for a partition it loaded |
| `Serving.RelayedAnswerIsRight` | serve.go:56-111 | whatever fails, times out or changes state meanwhile, an answer relayed from holders is 200 or 404, 200 only for dataset keys, and with safe files 200 for all of them |
| `Serving.FailureStatus` | serve.go:62-92 | 504 exactly if the total timeout ended the call that counts, 500 exactly if the request was cancelled during it, 502 exactly if there was no peer to ask or all failed |
| `Serving.SmoothRequest` | serve.go:56-90 | when nothing fails, a dataset key with holders of both partitions is answered 200, or 502 exactly when every peer asked for the normal partition answers an error |
| `Serving.BadGatewayIff` | serve.go:56-90 | for a dataset key with holders of both partitions, a request that nothing fails in can be answered 502 if and only if no key with either partition as its normal one is taken for the key's normal partition |
| `Serving.BadGatewayPossibleIff` | serve.go:56-90 | some dataset makes that happen to a key exactly when its two partitions differ and the alternate is some key's normal one |
| `Latch.ApplyExact` | partitions.go:98-157 | one update makes the missing count exact, closes the latch exactly on coverage, and never shrinks local |
| `Latch.ReadyIffOnceCovered` | partitions.go:98-157 | over every sequence of updates the count is the number of uncovered partitions, and ready is closed exactly if coverage was once complete |
| `Latch.ViewIsExact` | partitions.go:98-134 | over every sequence of updates local is all that was added, and remote the last listing |
| `Latch.ClosedAtFirstCoverage` | partitions.go:152-156 | the update that closes ready is the first moment of coverage |
| `ZkNames.PrintThenRead` | partitions.go:124-125 | `%05d` then `Atoi` gives every natural number back |
| `ZkNames.PrintWidth` | partitions.go:219-221 | five places for every number below 100000, and as many as needed otherwise |
| `ZkNames.KnownPrints` | partitions.go:219-221 | 42 is printed as 00042, 1234567 as it is |
| `ZkNames.UnreadableIsZero` | partitions.go:124-125 | what begins with neither a digit nor a sign counts as partition 0 |
| `ZkNames.SplitJoin` | partitions.go:124-126 | splitting at the first `@` undoes joining |
| `ZkNames.NodeNameRoundTrip` | partitions.go:219-221 | partition and address are recovered from a node name, whatever the address holds |
| `ZkNames.NodeNameInjective` | partitions.go:219-221 | different partitions or addresses have different names |
| `Partitions.ZkWatcher.CreateEphemeral` | zk_watcher.go:210-220 | the desired set gains the node |
| `Partitions.ZkWatcher.RemoveEphemeral` | zk_watcher.go:222-232 | the desired set loses the node |
| `Partitions.RemoteOfMembers` | partitions.go:122-130 | a partition is in the remote map exactly when the listing has it for another node |
| `Partitions.RemoteOfHosts` | partitions.go:122-132 | the hosts recorded for a partition are exactly the other nodes that the listing has it for |
| `Partitions.HostsDistinct` | partitions.go:122-132 | each once, if the listing names no node twice for a partition |
| `Partitions.PartitionSet.GetPeers` | partitions.go:224-235 | the hosts recorded for the partition, or none |
| `Partitions.PartitionSet.Have` | partitions.go:180-185 | whether the partition is local |
| `Partitions.PartitionSet.constructor` | partitions.go:36-60 | a new object is valid: exact count, at most one close, nothing registered |
| `Partitions.PartitionSet.UpdateMissing` | partitions.go:136-157 | the loop counts the uncovered partitions; ready is never closed twice |
| `Partitions.OthersUndisturbed` | partitions.go:219-221 | what leaves the nodes outside one version's directory alone leaves those registered for every other version alone |
| `Partitions.PartitionSet.UpdateLocalPartitions` | partitions.go:98-112 | keeps validity: while advertising, the registered nodes are exactly the names of the local partitions; nodes outside the version's directory stay |
| `Partitions.PartitionSet.UpdateRemotePartitions` | partitions.go:114-134 | panics exactly on a name without `@`, with nothing changed; otherwise keeps validity and takes the listing as the specification does; nothing outside a cluster |
| `Partitions.PartitionSet.AdvertisePartitions` | partitions.go:191-203 | afterwards exactly the local partitions are registered in the version's directory, and outside it what was before |
| `Partitions.PartitionSet.UnadvertisePartitions` | partitions.go:205-217 | afterwards no node of the version is registered, and outside its directory what was before |
| `Partitions.PartitionSet.Needed` | partitions.go:166-178 | the selected partitions that are not local |
| `Peers.PeerSet.UpdatePeers` | peers.go:73-117 | panics exactly on a name without `@`, with nothing changed; otherwise the peers are the listed ones but oneself, and the ring has their shards and one's own |
| `Peers.PeerSet.Pick` | peers.go:131-153 | the addresses of the peers of the picked shards, and oneself if one's own shard is picked |
| `Peers.PickLocalPartitions` | partitions.go:65-84 | the selected partitions are those for which the ring picks one's own shard, or all outside a cluster |
| `Peers.PartitionIdInjective` | partitions.go:237-243 | different partitions, and different versions, are placed on the ring by different identifiers |
| `Cluster.CommonView` | peers.go:73-117 | from one listing every member gets all others as peers and the same shards on its ring |
| `Cluster.SelectionFollowsShard` | partitions.go:65-84 | nodes that share a shard select the same partitions |
| `Cluster.ReplicationExact` | partitions.go:65-84 | each partition is selected by exactly min(replication, shards) shards |
| `Cluster.SelectionsAddUp` | partitions.go:65-84 | selections added up over the shards are partitions times min(replication, shards) |
| `Cluster.RemoteIsWhatOthersHave` | partitions.go:114-134 | from the advertised nodes, printed and parsed, a member learns exactly what the others have |
| `Cluster.RemoteHosts` | partitions.go:114-134 | the hosts a member would ask for a partition are exactly the addresses of the other members that have it, each once |
| `Cluster.MembersAgree` | peers.go:131-153 | whom a member picks for a partition are exactly the members that select it themselves |
| `Cluster.EveryNodeCovered` | partitions.go:98-157 | once every member has built its selection and has the listing, each has zero missing and ready closed |
| `Proxy.Proxy` | proxy.go:42-103 | the loop, for any creation failures and any events that its selects find, ends in the state that the events determine |
| `Proxy.RunsFollow` | proxy.go:42-103 | in every run of the whole call, at each select and after the return, that state is the loop's: the theorems below are about the method |
| `Proxy.RunInvariant` | proxy.go:42-119 | for distinct peers and every order of events each started attempt is in exactly one place and each peer is dealt with once |
| `Proxy.OutstandingIsExact` | proxy.go:57-92 | outstanding is attempts started minus errors received, and the number of replies still to come |
| `Proxy.SendsNeverBlock` | proxy.go:43-119 | an attempt always has room in the channel, also after the call returned |
| `Proxy.NoAvailablePeersMeansAllFailed` | proxy.go:73-75 | that error means that every peer's request could not be created or its attempt ended in an error |
| `Proxy.AnswerIsThePeers` | proxy.go:105-119 | an answer has the status that the named peer replied, 200 or 404 |
| `Proxy.AnswererDidNotFail` | proxy.go:77-92 | the peer that answers is one of those asked, and its one attempt did not fail |
| `Proxy.WinnerAloneSurvives` | proxy.go:83-92 | on an answer every other started attempt is cancelled and the winner is not |
| `Proxy.ResultExact` | proxy.go:93-98 | the result is a timeout exactly if the total timeout fired, a cancellation exactly if the request was cancelled, and the context of the attempts is cancelled by the timeout alone |
| `Proxy.NeverWaitsForNothing` | proxy.go:73-98 | a call that has gone through all peers only waits while a reply is still to come |
| `Proxy.AllPeersTriedInTime` | sequins.go:105-109 | with the default stage timeout, every list of at most `replication` peers has all attempts started strictly before the total timeout unless the call has returned |
| `Proxy.DefaultStageIsLargest` | sequins.go:105-109 | the default is the largest stage timeout with which `replication` stages fit into the total |
| `BuildLocks.Multilock.constructor` | multilock/multilock.go:9-19 | the filling loop leaves one token per slot |
| `BuildLocks.Multilock.Lock` | multilock/multilock.go:24-26 | takes one token |
| `BuildLocks.Multilock.Unlock` | multilock/multilock.go:29-31 | gives one back, within the capacity |
| `BuildLocks.RunInvariant` | build.go:21-47 | over every run each lock is recorded for exactly the build past taking it |
| `BuildLocks.OneLoadPerDb` | build.go:32-33 | at most one load per database at a time |
| `BuildLocks.SlotsConserved` | build.go:36-39 | free slots plus loads are constant, so at most the limit run at once |
| `BuildLocks.LoadsAtMostOnce` | build.go:25-29 | a version loads successfully at most once |
| `BuildLocks.BuiltExact` | build.go:25-71 | a version counts as built exactly if a build of it loaded it or found nothing needed; a failed build leaves it open to the next one |
| `BuildLocks.SomeBuildCanStep` | build.go:21-72 | while a build has not returned some build can step |
| `Znodes.ZooKeeper.CleanupTree` | zk_watcher.go:394-407 | on every tree, exactly the ephemeral nodes and their ancestors are left below the node, and everything elsewhere |
| `Znodes.CleanedKeepsEphemerals` | zk_watcher.go:394-407 | what is left is a tree with all its ephemeral nodes |
| `Znodes.ZooKeeper.CreateAll` | zk_watcher.go:368-383 | succeeds exactly when no proper prefix is ephemeral; then every prefix exists, and nothing is removed or changed |

## Left out

- A `Save`, `Add` or directory creation that fails midway, and disk errors in general: a failed build is one whose scan fails or is cancelled, and is reverted as a whole.
- Node.LocalLookupFindsDatasetKeys: for safe files only, since from any other file the early exit loses a key for some choice of wanted partitions (`Ingest.SafeIff`); `Node.LookupExact` holds for all files. `Serving` says in each clause whether it needs safe files.
- `db.close` and `db.delete`, which close live versions outside the upgrade protocol.
- `cleanupStore`, whose references to versions come and go like those of requests.
- `version.close` takes the build lock in a goroutine of its own; the model closes in one step.
- The unlocked call of `updateMissing` in `watchPartitions`, which is one step here.
- Reconnection, watches and session events of ZooKeeper: `Partitions` tracks the desired set of ephemeral nodes, `Znodes` the tree.
- The hashing inside the ring.
- A peer that no longer has the version it is asked for and answers from its current one (`version_mux.go:67-84`): `Serving` takes every answer to come from a holder.
- `Serving.Shuffle`: the permutation is a parameter, so nothing is said about its distribution.
- Partitions.PartitionSet.constructor: a first listing with a name without `@` is shut out, since the source then panics before there is an object.
- `Atoi` beyond the range of a Go `int`.
- HTTP bodies and headers, the status page, debug counters, configuration, SequenceFile decoding, backends, throttling: they would only add easy members.
