# Verified models of the npm-follower core

A Dafny model of the parts of npm-follower that keep state or do non-trivial arithmetic, with proofs of what they
guarantee. Each module models one component in the form of its source: a class with methods where the source updates
objects, tables or files in place, functions and lemmas where it computes. The specification functions that the methods
are proved against are the ones that the theorems are about.

| files | component |
|---|---|
| `AvcCore` `AvcSplit` `AvcPack` `AvcApply` `AvcCommit` `AvcBuildProof` `AvcBuildTheorem` `AvcHistory` `AvcRuns` `AvcStaging` `AvcStore` `AvcUploads` | the version store for append-only files: building commits, replaying them on a clone, the round trip over whole histories, and which uploads can be read |
| `SlicedReader` | the reader that presents slices of local files as one flat file |
| `BlobModel` `BlobSystem` `BlobAnswers` `BlobServer` | the blob index server, its clients and the shared files: requests as functions, the protocol as a transition system, and the server and client as objects |
| `RelationalModel` `RelationalRuns` | the relational tables and the direct effect of each diff-log instruction, with conservation of the dependency counters and completeness of references |
| `RelationalCache` `RelationalAccessor` `RelationalReplay` | the cached accessor, proved to be indistinguishable from the direct tables |
| `DiffLogModel` `DiffLogRuns` `DiffLogBuilder` | the diff-log builder with its state table, and the histories that it goes through |
| `DiffLogFates` `DiffLogReplay` `LogDemands` `DiffLogTables` `PackageRows` `VersionRows` | what the builder's logs say of each version, which logs can be replayed, and what they make of the relational tables, told by the snapshots |
| `Download` | the download loop over the download queue |
| `WorkerPool` | the pool of worker jobs |
| `NullEscape` `SemverText` `TimeTravel` | the null-escape transducer, version numbers as text, the registry at a time and the solve loop |
| `Optional` | the optional value |

`dafny verify dfyconfig.toml` checks the whole project.

## Modelling choices

- Tables are maps or sequences, files are sequences of bytes, and integers are unbounded except where the source parses
  `i64` values.
- SHA-256 digests are injective: a commit id is fresh, a content hash is what was hashed, and the digest of a dependency
  is the text it digests, the package name followed by the raw spec.
- The 48 GB limit of the version store is a positive constant of the model.
- Each server request of the blob index is one step. Between steps anything may happen: other requests, partial client
  writes, expiry at any time (also of a lock that was taken after its cleaner was started), unlocks by the wrong node, and
  restarts. Session node ids are distinct, and `__file_pool__` is not a key.
- An LRU cache evicts arbitrary entries; the unit-cost dependency cache evicts at most one for each push.
- Where the source panics or raises, the model has an explicit failure result, and the contracts say exactly when.

## What the code does not guarantee

Five properties that one might expect fail; for each there is an input that shows it and an if-and-only-if over all inputs.

- A staged size may be negative, because `add` only warns when fewer bytes are given than are committed
  (`AvcUploads.NegativeCommit`, `AvcUploads.NegativeCommitReached`). A clone can fast-forward if and only if no committed
  size is negative (`AvcRuns.CloneRoundTrip`).
- A reader whose first slice is empty raises when it reads some bytes before any seek has succeeded; a seek to any valid
  position repairs it (`SlicedReader.ReaderIsFlat`). An append of nothing before one of some bytes leads to such an upload
  (`AvcUploads.EmptyAppendFirst`); all uploads of a commit can be read if and only if it does not start like that
  (`AvcUploads.UploadsRead`). The round trip takes the uploads as carried out.
- Deleting or updating a version does not mark its package's state row for writing. If no change of the batch brings new
  package data or a new version, the removal is forgotten, and may be logged again (`DiffLogFates.DeletedTwice`,
  `DiffLogTables.DeletedTwiceMiscounts`). That
  happens if and only if the next snapshot that does not have the version as remembered lacks it
  (`DiffLogFates.TwiceWhen`), and the counters of the tables are wrong afterwards, for good, if and only if it happens to a
  version that was first seen with dependencies (`DiffLogTables.HistoryConserves`, `RelationalRuns.LogDrifts`).
- For the same reason, data of a version that only one batch had can stay in the log and the tables
  (`DiffLogFates.DataMissed`); the log agrees with the last snapshots if and only if no change is taken for none
  (`DiffLogFates.AlwaysLogsLastWhen`, `DiffLogFates.AlwaysRemembersWhen`).
- A version that is missing from a snapshot and comes back unchanged stays deleted (`DiffLogFates.ReturnMissed`), and one
  that came back changed and is missing again stays live (`DiffLogFates.RemovalMissed`). The tables agree with the snapshots
  if and only if neither happens (`DiffLogTables.TablesFollowSnapshots`).

Smaller ones: an update to an unpublished package with version times cannot be serialized and panics
(`RelationalModel.UpdatedPackageRow`), and the download loop would starve with chunks of one task and more than two tasks,
which its first assertion excludes (`Download.NeverStarvesIff`). A read of a size below -1 returns nothing
(`SlicedReader.FlatRead`), where an ordinary file would refuse it.

## Model

| member | source | states |
|---|---|---|
| AvcSplit.SplitCreates | database_exporting/avc.py:399-410 | creates above the limit are trimmed to it and their rest is queued as appends, in order; the assertion on offset 0 holds |
| AvcSplit.MassDecreases | database_exporting/avc.py:413-426 | each turn of the scan that grows its own list lowers a bound on the rows still to come, so that it ends |
| AvcSplit.SplitAppends | database_exporting/avc.py:413-426 | the scan over the growing list ends and yields the appends in the order of its queue |
| AvcSplit.ScanExact | database_exporting/avc.py:412-426 | the chunks of each path are contiguous, start where the file ends, follow in order, and lead exactly to the staged sizes |
| AvcSplit.ScanChunks | database_exporting/avc.py:412-426 | every chunk is at most the limit, and a negative staged size is still there as a negative chunk |
| AvcSplit.ScanBacked | database_exporting/avc.py:417-424 | every chunk reads in place from the file that its staged change names |
| AvcPack.PackAppends | database_exporting/avc.py:472-513 | the loop produces the rows and uploads of the packing, and its assertion that a closed blob is not empty always holds |
| AvcPack.PackIsNextFit | database_exporting/avc.py:476-508 | the packing is next-fit: no blob is empty or above the limit, a new one is opened only when the next append does not fit, and nothing is lost or reordered |
| AvcPack.NextFitIsPack | database_exporting/avc.py:476-508 | there is only one next-fit packing of given appends, the one that is built |
| AvcPack.RowsInOrder | database_exporting/avc.py:494-508 | append rows keep the order of the appends, have consecutive batches, and name blobs of this commit with increasing numbers |
| AvcPack.RowsTile | database_exporting/avc.py:494-506 | the rows of a blob tile it: each byte from 0 to its size is in exactly one row, and no row leaves it |
| AvcPack.FewBlobs | database_exporting/avc.py:481-492 | k append blobs need more than floor(k/2) times the limit of bytes |
| AvcPack.TotalIsStaged | database_exporting/avc.py:476-508 | the blobs together hold exactly the bytes of the appends |
| AvcPack.BinMatches | database_exporting/avc.py:494-506 | in the concatenation of a blob's sources, each row's range holds the bytes of its part of the file |
| AvcPack.PackMatches | database_exporting/avc.py:476-513 | carrying out the append operations gives every append row its bytes and touches no other blob |
| AvcApply.PlanChanges | database_exporting/avc.py:618-647 | the reversed scan with its set of deleted blobs gives the plan in which a blob is deleted right after the last append that reads it, and fails exactly on a bad create row |
| AvcApply.Replay | database_exporting/avc.py:649-683 | replaying rows that fit, from blobs that hold their bytes, passes every assertion, gives the files the new sizes and the original bytes, and consumes exactly the blobs of the rows |
| AvcApply.ApplySucceeds | database_exporting/avc.py:605-690 | so does a whole commit, its create assertions included |
| AvcApply.NegativeRowFails | database_exporting/avc.py:676-680 | a commit with a negative append row fails whatever the clone holds |
| AvcCommit.BuildChanges | database_exporting/avc.py:391-513 | rows and uploads of a commit are those of the trimmed creates and of the packed chunks |
| AvcBuildProof.OrderSplit | database_exporting/avc.py:607-612 | whatever order the query gives to rows of equal batch, only the creates can change places |
| AvcBuildProof.AnyOrderFits | database_exporting/avc.py:607-612 | in every such order the rows fit and lead to the same sizes |
| AvcBuildTheorem.CommitFits | database_exporting/avc.py:391-513 | the rows of a built commit fit the committed sizes, and lead to start plus size for staged paths and to the old size for all others |
| AvcBuildTheorem.StagedSize | database_exporting/avc.py:260-274 | a staged path then has the size at which its staged change ends |
| AvcBuildTheorem.UnstagedSize | database_exporting/avc.py:260-274 | a path that was not staged keeps its size |
| AvcBuildTheorem.CommitPublished | database_exporting/avc.py:446-513 | each row finds the bytes of its part of the file in the uploaded blobs, and each create has a whole blob of its own |
| AvcBuildTheorem.CommitNames | database_exporting/avc.py:432-513 | the blobs uploaded are exactly those that the rows name |
| AvcBuildTheorem.RowsWithinLimit | database_exporting/avc.py:396-451 | no row exceeds the limit |
| AvcBuildTheorem.SignsSurvive | database_exporting/avc.py:399-426 | a commit has a negative row if and only if a staged change is negative |
| AvcBuildTheorem.RowsNotEmpty | database_exporting/avc.py:614 | a commit of staged changes has rows, so that the first assertion of a later replay holds |
| AvcHistory.LatestIsLast | database_exporting/avc.py:266-270 | with the primary key, the row with the greatest batch for a path is the last one of the path |
| AvcHistory.LookupIsChainSize | database_exporting/avc.py:260-274 | walking back to the first commit that mentions a path finds the size that replaying the whole chain gives |
| AvcHistory.AddKeepsStagedOk | database_exporting/avc.py:310-345 | staging keeps the staged changes valid: at most one for each path, starting at the committed size, inside the file |
| AvcRuns.CommitKeyed | database_exporting/avc.py:446-508 | (commit, batch, path) is unique, also when a create and its spilled appends share a path |
| AvcRuns.CommitUploadStable | database_exporting/avc.py:546-548 | uploads carried out later, from files that have grown, give the same blobs |
| AvcRuns.BuiltApplicable | database_exporting/avc.py:356-550 | a commit built from valid staged changes without negative sizes can be applied, in every row order |
| AvcRuns.StepSound | database_exporting/avc.py:276-578 | every event (a file grows, add, reset, commit, abort) keeps all commits applicable and the staged changes valid |
| AvcRuns.RunSound | database_exporting/avc.py:276-578 | so does every legal history |
| AvcRuns.FastForwardSucceeds | database_exporting/avc.py:580-690 | from any commit at which the clone is right, fast-forwarding passes every assertion, ends with each path equal to its committed bytes, and consumes every pulled blob |
| AvcRuns.FastForwardFails | database_exporting/avc.py:580-690 | a negative committed size can never be fast-forwarded over |
| AvcRuns.CloneRoundTrip | database_exporting/avc.py:580-690 | for every history: a fresh clone fast-forwards to main if and only if no commit has a negative size, and then has exactly the committed bytes of every path and no blob left |
| AvcRuns.SoundRoundTrip | database_exporting/avc.py:580-690 | the same for every sound repository |
| AvcStaging.AddStagesUpTo | database_exporting/avc.py:315-347 | an `add` stages its path up to the given number of bytes or to where it was staged before, whichever is more, and no other path |
| AvcStaging.CommitEnds | database_exporting/avc.py:399-513 | a commit leads each staged path to where its staged change ends, whatever the sizes, and leaves all other paths |
| AvcStaging.CommitsWhatWasAdded | database_exporting/avc.py:260-550 | over all histories: the next commit leaves each path that was added since the last commit or reset with the greatest number of bytes that was added, and every other path with its committed size |
| AvcUploads.UploadsRead | database_exporting/avc_hf.py:78-121 | all uploads of a commit can be read to their content if and only if the first staged append is not empty, or there are no bytes to append |
| AvcUploads.HistoryUploadsRead | database_exporting/avc_hf.py:78-121 | so in every history without negative sizes |
| AvcUploads.EmptyAppendFirst | database_exporting/avc.py:470-513 | an append of nothing before one of some bytes gives one upload, which the reader cannot read |
| AvcUploads.NegativeCommit | database_exporting/avc.py:326-347 | adding fewer bytes than are committed is accepted, and commits a negative size |
| AvcUploads.NegativeCommitReached | database_exporting/avc.py:326-347 | such a state is reached by committing a file of two bytes |
| AvcStore.Avc.GetCommittedFileSize | database_exporting/avc.py:260-274 | the walk from HEAD returns the committed size of the chain |
| AvcStore.Avc.Add | database_exporting/avc.py:276-347 | exactly when it is refused, and what is staged then: the path up to the given number of bytes or to where it was staged before, whichever is more |
| AvcStore.Avc.BuildGitCommit | database_exporting/avc.py:356-550 | the new commit, its rows, refs and operations; a dry run changes nothing |
| AvcStore.Avc.AbortLastCommit | database_exporting/avc.py:552-578 | refs and tables are those of before the last commit |
| AvcStore.Avc.Execute | database_exporting/avc.py:649-683 | the loop over the plan has the effect of the plan, and fails exactly where an operation fails |
| AvcStore.Avc.ApplyCommit | database_exporting/avc.py:605-690 | the files, blobs and HEAD after one commit; it fails exactly where the specification does |
| AvcStore.Avc.FastForwardToMain | database_exporting/avc.py:580-603 | the two loops apply the missing commits in order and end with HEAD at main; the exception about ancestors is never raised |
| SlicedReader.FlatSlice | database_exporting/avc_hf.py:19-23 | bytes of a slice lie in the flat file where the cumulative lengths say |
| SlicedReader.NextSource | database_exporting/avc_hf.py:125-134 | when reading reaches the end of a slice, the source chosen next starts there |
| SlicedReader.SlicedFileReader.FindSourceIdx | database_exporting/avc_hf.py:61-69 | the bisection finds the slice that has the byte at an offset, or none at or after the end; it fails on a negative offset |
| SlicedReader.SlicedFileReader.Tell | database_exporting/avc_hf.py:71-72 | the position in the flat file |
| SlicedReader.SlicedFileReader.Seek | database_exporting/avc_hf.py:75-96 | all three whences go where they go on a flat file, also past the end; it raises exactly on a negative target or an unknown whence |
| SlicedReader.SlicedFileReader.Read | database_exporting/avc_hf.py:99-136 | a read returns what the flat file returns and ends; its assertion fails exactly when the reader still stands in an empty first slice and there is something to read |
| SlicedReader.SlicedFileReader.Copy | database_exporting/avc_hf.py:36-59 | a reader that is pickled and unpickled continues where it stood |
| SlicedReader.FlatReadIs | database_exporting/avc_hf.py:99-136 | a read gives as many of the next bytes as are asked for, or the rest |
| SlicedReader.FlatReadsJoin | database_exporting/avc_hf.py:99-136 | reading in two steps is reading at once |
| SlicedReader.SeekLaws | database_exporting/avc_hf.py:75-97 | positions count from the start, from here, or from the end |
| SlicedReader.ReaderIsFlat | database_exporting/avc_hf.py:15-136 | all answers are those of the flat file, unless the reader stands in an empty first slice and reads some bytes before any seek has succeeded |
| SlicedReader.UseOnce | database_exporting/avc_hf.py:15-136 | the answer of each use of any reader, and where it leaves the reader |
| SlicedReader.UseMany | database_exporting/avc_hf.py:15-136 | the answers of any interleaving of seeks, tells, reads and pickling, on any reader; they are those of the flat file except in the stated case |
| SlicedReader.ReadUpload | database_exporting/avc_hf.py:178-190 | reading an upload from its start gives its content if and only if its first source is not empty or there is nothing to read |
| BlobModel.WithSlicesAt | blob_idx_server/src/blob.rs:516-531 | each key of a request gets its own part of the granted range, in request order, not yet written |
| BlobModel.WithSlicesFrame | blob_idx_server/src/blob.rs:516-531 | keys that are not in the request keep their rows |
| BlobModel.MarkedIs | blob_idx_server/src/blob.rs:577-585 | an unlock marks exactly the keys of the lock as written, and moves no slice |
| BlobSystem.DataAt | blob_idx_client/src/lib.rs:571-574 | the bytes of each stored item lie in the payload where its slice says |
| BlobSystem.Ordered | blob_idx_server/src/blob.rs:503-512 | of two grants on a file the later one starts after the range of the earlier one |
| BlobSystem.OneCreator | blob_idx_server/src/blob.rs:435-448 | `needs_creation` is returned once for each file |
| BlobSystem.NoPanic | blob_idx_client/src/lib.rs:540-545 | no client that must create its file ever finds it there already |
| BlobSystem.WriteKeepsOthers | blob_idx_client/src/lib.rs:562-574 | what a client writes, expired or not, never touches the range of another grant |
| BlobSystem.PickedIsUnlocked | blob_idx_server/src/blob.rs:434-493 | taking a lock never overwrites a live one |
| BlobSystem.UnlockerHolds | blob_idx_server/src/blob.rs:571-576 | an unlock succeeds only for the grant that holds the lock |
| BlobSystem.GrantKeepsGrants | blob_idx_server/src/blob.rs:425-512 | a new grant starts where the ranges of its file end, and creates the file exactly if it is the first one on it |
| BlobSystem.StepKeeps | blob_idx_server/src/blob.rs:180-611 | every request, client write, unlock by the right or a wrong node, expiry and restart keeps the invariant of allocator, locks, rows and files |
| BlobSystem.RunKeeps | blob_idx_server/src/blob.rs:180-611 | so does every run |
| BlobSystem.StartOk | blob_idx_server/src/blob.rs:216-224 | the empty system satisfies the invariant |
| BlobSystem.LookupReads | blob_idx_client/src/lib.rs:337-351 | whatever a lookup answers can be read, and reads as the bytes that were stored under the key |
| BlobSystem.StepKeepsWritten | blob_idx_server/src/blob.rs:398-412 | a written key is never granted again: it keeps its slice and its origin in every step |
| BlobSystem.ReadAfterWrite | blob_idx_server/src/blob.rs:605-611 | once a key is written, every later lookup in every run returns the same slice, and reading it always yields the stored bytes, whatever other clients, expiries, new requests and restarts do |
| BlobSystem.StoredForever | blob_idx_client/src/lib.rs:576-597 | a client whose unlock succeeds has published all its items for good |
| BlobSystem.EveryRunSafe | blob_idx_server/src/blob.rs:392-603 | in every state that a run reaches from the empty system all slices ever handed out are disjoint and sum to the sizes of their files, the pool is within its limit, each file has one creator, and live locks are on disjoint sets of unwritten keys |
| BlobSystem.EveryRunReads | blob_idx_server/src/blob.rs:605-611 | in every run a key that could once be looked up is looked up with the same slice ever after, and reads as what its owner stored |
| BlobSystem.EveryRunStores | blob_idx_client/src/lib.rs:502-601 | in every run a client whose unlock succeeds has stored all its items for ever |
| BlobSystem.UnlockPublishes | blob_idx_server/src/blob.rs:567-590 | a successful unlock publishes all keys of the client, all of which it still owns |
| BlobSystem.SlicesDisjoint | blob_idx_server/src/blob.rs:503-531 | no two slices ever handed out overlap |
| BlobSystem.LocksDisjoint | blob_idx_server/src/blob.rs:398-412 | live locks are on disjoint sets of keys |
| BlobSystem.LockedRowsExist | blob_idx_server/src/blob.rs:553-585 | the unwraps of unlock and keep-alive never fail: every locked key has a row, every locked file a cleaner |
| BlobSystem.ForeignUnlockFails | blob_idx_server/src/blob.rs:572-576 | an unlock by a node that was granted nothing fails; it drops the lock all the same |
| BlobAnswers.EveryRunRefuses | blob_idx_server/src/blob.rs:392-420 | in every run a request is refused as existing if and only if one of its keys was published by an unlock, or was last granted on a file that is locked now; otherwise it is granted unless it repeats a key |
| BlobAnswers.FreedKeys | blob_idx_server/src/blob.rs:229-268 | after a restart only published keys are refused, and an expiry frees the keys last granted on its file |
| BlobAnswers.EveryRunLooksUp | blob_idx_server/src/blob.rs:605-611 | in every run a key can be looked up if and only if it was published; it is said not to be written if it was only granted, and not to exist if it never was |
| BlobAnswers.UnlockIs | blob_idx_server/src/blob.rs:567-603 | an unlock drops the lock in any case and no other; it succeeds only for the node that took the lock, and only then marks its keys |
| BlobAnswers.ExpireIs | blob_idx_server/src/blob.rs:229-268 | a cleaner drops the lock of its file and does nothing else |
| BlobAnswers.RestartIs | blob_idx_server/src/blob.rs:180-225 | a restart keeps rows and files, and raises the limit no further than it must |
| BlobAnswers.PicksAre | blob_idx_server/src/blob.rs:434-493 | below the limit a request gets a new file, at the limit any unlocked one; it waits if and only if the limit is reached and all files are locked |
| BlobAnswers.KeepsAlive | blob_idx_server/src/blob.rs:553-565 | a keep-alive succeeds just when some node could unlock the file |
| BlobServer.SetSizeUnique | blob_idx_server/src/blob.rs:415-420 | comparing the size of the set of keys with the number of keys finds exactly the duplicates |
| BlobServer.BlobStorage.constructor | blob_idx_server/src/blob.rs:180-225 | after a restart the server has the rows of Redis, no locks, and a limit of at least the number of files |
| BlobServer.BlobStorage.MapLookup | blob_idx_server/src/blob.rs:313-341 | a lookup through memory and Redis answers as one table does, and loading a row changes nothing that can be seen |
| BlobServer.BlobStorage.CreateAndLock | blob_idx_server/src/blob.rs:392-551 | the whole new state and reply of a create request, its refusals included |
| BlobServer.BlobStorage.CreateUnlock | blob_idx_server/src/blob.rs:567-603 | the whole new state and reply of an unlock request; memory and Redis agree afterwards |
| BlobServer.BlobStorage.LookupKey | blob_idx_server/src/blob.rs:605-611 | the reply of a lookup |
| BlobServer.BlobStorage.KeepAliveLock | blob_idx_server/src/blob.rs:553-565 | the reply of a keep-alive; the cleaner it needs is there |
| BlobServer.BlobStorage.TimerFires | blob_idx_server/src/blob.rs:229-268 | a cleaner removes whatever lock its file has |
| BlobServer.SharedDisk.WriteItems | blob_idx_client/src/lib.rs:562-574 | writing the items one after another writes the payload at the granted offset |
| BlobServer.SharedDisk.StoreIntoBlob | blob_idx_client/src/lib.rs:502-601 | a store that nothing interrupts is never refused its unlock, and if it reports success each key reads as its bytes |
| BlobServer.SharedDisk.ReadBlob | blob_idx_client/src/lib.rs:337-351 | a read looks the key up and reads exactly its slice |
| RelationalModel.DiffThenApply | postgres_db/src/packages.rs:60-142 | applying the difference of two packages to the first gives the second |
| RelationalModel.UpsertOk | postgres_db/src/dependencies.rs:209-242 | an upsert keeps the table and its index, and changes nothing of existing rows but counts |
| RelationalRuns.ReplayOk | relational_db_builder/src/lib.rs:38-68 | every instruction keeps the tables and their indexes well-formed |
| RelationalRuns.RecountCounts | postgres_db/src/dependencies.rs:49-129 | counting a version up or down adds or takes away exactly its listings, although the rows it reads may have stale counts |
| RelationalRuns.NewRowListings | relational_db_builder/src/lib.rs:390-403 | the four id lists of a new version list exactly what was inserted under their kind |
| RelationalRuns.DeleteDrifts | relational_db_builder/src/lib.rs:578-624 | deleting a version moves each count off its number of listings by exactly the listings of the version if it is deleted already, and not at all if it is live |
| RelationalRuns.UpdateDrifts | relational_db_builder/src/lib.rs:429-576 | updating a live version or reviving a deleted one moves no count off its number of listings |
| RelationalRuns.CreateVersionDrifts | relational_db_builder/src/lib.rs:285-427 | nor does creating a version |
| RelationalRuns.ReplayDrifts | relational_db_builder/src/lib.rs:38-68 | every instruction moves each count off its number of listings by exactly what it takes away unduly |
| RelationalRuns.ReplayConserves | relational_db_builder/src/lib.rs:38-68 | an instruction conserves the counts if and only if it does not delete a deleted version that has dependencies |
| RelationalRuns.LogDrifts | relational_db_builder/src/lib.rs:38-68 | after every log, each count of each dependency under each kind is the number of times live versions list it, less exactly what double deletions took away; no later entry repairs it |
| RelationalRuns.LogConserves | relational_db_builder/src/lib.rs:38-68 | so after a log all counts are right if and only if it never deletes a deleted version that has dependencies |
| RelationalRuns.ReplayRight | relational_db_builder/src/lib.rs:272-283 | no instruction leaves or makes a wrong reference, and a patched package stays referred to by all that name it |
| RelationalRuns.LogLinks | relational_db_builder/src/lib.rs:272-283 | after every log, every dependency on a package that was ever patched has its id, all ids are right, and the latest version of a package is its own |
| RelationalCache.HitRefines | relational_db_builder/src/relational_db_accessor.rs:195-205 | counting in memory on a cache hit is counting in the table |
| RelationalCache.MissRefines | relational_db_builder/src/relational_db_accessor.rs:207-229 | a miss touches a row that is not dirty, so that the table and the cached view of it move together |
| RelationalCache.EvictRefines | relational_db_builder/src/relational_db_accessor.rs:230-249 | evicting any entry, and writing it back if it is dirty, changes nothing that a reader sees |
| RelationalCache.AllWritten | relational_db_builder/src/relational_db_accessor.rs:305-335 | once every dirty row is written, table and cached view are equal |
| RelationalAccessor.RelationalDbAccessor.GetPackageByName | relational_db_builder/src/relational_db_accessor.rs:61-98 | through both caches, any eviction and negative entries, the row and id are those of the table |
| RelationalAccessor.RelationalDbAccessor.MaybeGetPackageIdByName | relational_db_builder/src/relational_db_accessor.rs:100-112 | the id of the table, or none, also when the answer is cached |
| RelationalAccessor.RelationalDbAccessor.GetVersionIdBySemver | relational_db_builder/src/relational_db_accessor.rs:114-128 | the version id of the table |
| RelationalAccessor.RelationalDbAccessor.Push | relational_db_builder/src/relational_db_accessor.rs:230-249 | the push into the full cache evicts one arbitrary entry, which is written back if it is dirty |
| RelationalAccessor.RelationalDbAccessor.InsertOrIncDependency | relational_db_builder/src/relational_db_accessor.rs:189-252 | the cached view and the returned id are those of one direct upsert |
| RelationalAccessor.RelationalDbAccessor.InsertOrIncDependencies | relational_db_builder/src/relational_db_accessor.rs:344-353 | the same for a list of dependencies |
| RelationalAccessor.RelationalDbAccessor.FlushCaches | relational_db_builder/src/relational_db_accessor.rs:305-335 | no dirty digest is ever missing from the cache, and afterwards the tables are what direct writes would have left |
| RelationalAccessor.RelationalDbAccessor.InsertNewPackage | relational_db_builder/src/relational_db_accessor.rs:130-141 | the new row, and caches that agree with it: a negative cached id is replaced |
| RelationalAccessor.RelationalDbAccessor.UpdatePackage | relational_db_builder/src/relational_db_accessor.rs:143-168 | the updated row, and a cached package that is still equal to it |
| RelationalAccessor.RelationalDbAccessor.UpdateDepsMissingPack | relational_db_builder/src/relational_db_accessor.rs:170-180 | patching under dirty counts patches the cached view |
| RelationalAccessor.RelationalDbAccessor.InsertNewVersion | relational_db_builder/src/relational_db_accessor.rs:182-187 | the new version row and its cached id |
| RelationalReplay.StaleMarks | postgres_db/src/dependencies.rs:49-129 | marking a dependency ignores the counts that were read with it |
| RelationalReplay.StaleCompare | relational_db_builder/src/lib.rs:650-663 | comparing dependencies ignores them too |
| RelationalReplay.EntryProcessor.AssertUnique | relational_db_builder/src/lib.rs:639-648 | it passes exactly on lists without a repeated name |
| RelationalReplay.EntryProcessor.SortByKind | relational_db_builder/src/lib.rs:390-403 | the loop sorts the inserted ids into the lists of their kinds |
| RelationalReplay.EntryProcessor.CreateVersion | relational_db_builder/src/lib.rs:285-427 | the replay of this instruction through the caches has the effect of the direct one, and panics exactly where it does |
| RelationalReplay.EntryProcessor.UpdateVersion | relational_db_builder/src/lib.rs:429-576 | the same for an update, with its assertions |
| RelationalReplay.EntryProcessor.DeleteVersion | relational_db_builder/src/lib.rs:578-624 | the same for a deletion |
| RelationalReplay.EntryProcessor.UpdatePackage | relational_db_builder/src/lib.rs:166-270 | the same for a package update |
| RelationalReplay.EntryProcessor.ProcessEntry | relational_db_builder/src/lib.rs:38-68 | the same for every instruction |
| RelationalReplay.EntryProcessor.ProcessEntries | relational_db_builder/src/main.rs:199-238 | a whole session with its flush leaves the tables of the direct replay of the log, whose counts are right if and only if no deleted version with dependencies is deleted again |
| DiffLogModel.ProgressDone | diff_log_builder/src/lib.rs:131-189 | visiting the versions in any order leads to the same state |
| DiffLogModel.VersionsApply | postgres_db/src/diff_log/internal_diff_log_state/manager.rs:98-127 | no version instruction of a change makes the manager panic |
| DiffLogModel.ChangeApplies | diff_log_builder/src/lib.rs:89-285 | a change never fails an unwrap or assertion of the manager; afterwards every version of the snapshot has its hash, every other known one is deleted, and the flush operation is the stated one |
| DiffLogModel.ReprocessingIsQuiet | diff_log_builder/src/lib.rs:131-208 | processing the same change again emits nothing |
| DiffLogModel.ChangeReplays | diff_log_builder/src/lib.rs:89-285 | the instructions of a change refer only to what exists when they are replayed, and create nothing twice |
| DiffLogModel.SnapshotKeeps | diff_log_builder/src/deserialize/mod.rs:320-366 | a snapshot keeps the versions, the times of other versions, the dates and all tags; `latest` goes to the package if it is one of the versions, and back to the tags otherwise |
| DiffLogModel.SnapshotOfOthers | diff_log_builder/src/deserialize/mod.rs:296-420 | what deleted, unpublished and empty documents say of a package |
| DiffLogModel.SnapshotIsOk | diff_log_builder/src/deserialize/mod.rs:296-366 | the latest version of a snapshot is one of its versions, and a latest tag is never lost |
| DiffLogRuns.AppendReplays | diff_log_builder/src/lib.rs:278-282 | appending one package's instructions keeps the log of all packages replayable |
| DiffLogBuilder.DiffStateManager.LookupPackage | postgres_db/src/diff_log/internal_diff_log_state/manager.rs:32-61 | a lookup loads the stored row once and changes no package's state |
| DiffLogBuilder.DiffStateManager.FlushToDb | postgres_db/src/diff_log/internal_diff_log_state/manager.rs:132-161 | every row after the flush: inserted where there was none, set where there was one, and otherwise left alone |
| DiffLogBuilder.FlushMeans | postgres_db/src/diff_log/internal_diff_log_state/manager.rs:73-127 | a package is written if and only if an instruction created or updated it or created a version |
| DiffLogBuilder.Builder.DiffInstrs | diff_log_builder/src/lib.rs:110-276 | the instructions emitted for a snapshot |
| DiffLogBuilder.Builder.ProcessChange | diff_log_builder/src/lib.rs:89-285 | exactly the instructions of the change are logged, the package is in the state of the snapshot, and the other packages are left alone |
| DiffLogBuilder.Builder.ProcessChanges | diff_log_builder/src/lib.rs:39-87 | the log and the table are those of the history of all changes in their batches; rows have the data and versions of the last snapshot, and its whole state exactly if an instruction of the batch writes the row |
| DiffLogRuns.HistoryReplays | diff_log_builder/src/lib.rs:89-285 | whatever the changes and the batches, the log refers only to what it has created, creates nothing twice, and has created what the builder remembers |
| DiffLogRuns.LogNumbered | diff_log_builder/src/lib.rs:110-282 | every entry of the log has its place as its id, and the package and sequence number of a change |
| DiffLogRuns.WithoutLatestKeeps | diff_log_builder/src/lib.rs:287-310 | a package is created with its data but for the latest version |
| DiffLogRuns.BatchRow | postgres_db/src/diff_log/internal_diff_log_state/manager.rs:73-161 | when a batch ends, the row is what the batch remembers if some change of it brought new package data or a new version, and is the row of before otherwise |
| DiffLogFates.FateChanges | diff_log_builder/src/lib.rs:131-189 | what the instructions of a change do to each version, in any order of visits: create, revive, delete, or nothing |
| DiffLogFates.LogTellsFates | diff_log_builder/src/lib.rs:39-285 | the log of any history says of each version what the snapshots say: created with what, deleted or not, deleted twice or not |
| DiffLogFates.TwiceWhen | postgres_db/src/diff_log/internal_diff_log_state/manager.rs:114-161 | over all histories: the log deletes a version that is deleted already if and only if a removal was forgotten, because no change of its batch wrote the row, and the next snapshot that does not have the version as remembered lacks it again |
| DiffLogFates.DeletedTwice | postgres_db/src/diff_log/internal_diff_log_state/manager.rs:120-127 | three documents in three batches after which a version is deleted twice |
| DiffLogFates.CreatedAsSeen | diff_log_builder/src/lib.rs:144-189 | a version is created once, with what its first snapshot says, and is remembered ever after |
| DiffLogFates.ChangeAgrees | diff_log_builder/src/lib.rs:131-189 | exactly when a change leaves the log in agreement with its snapshot on a version |
| DiffLogFates.AlwaysAgreesWhen | diff_log_builder/src/lib.rs:131-189 | over all histories: the log always has a version live just when the last snapshot has it, if and only if it never comes back as it is remembered and is never missing again while it is remembered as deleted |
| DiffLogFates.AlwaysLogsLastWhen | diff_log_builder/src/lib.rs:131-189 | over all histories: the data logged last of a version are always those of the last snapshot that has it, if and only if it never comes as it is remembered but otherwise than the last snapshot had it |
| DiffLogFates.AlwaysRemembersWhen | postgres_db/src/diff_log/internal_diff_log_state/manager.rs:98-161 | over all histories: what is remembered of a version is always what was logged last, if and only if no batch that writes no row ends with other data than are stored |
| DiffLogFates.DataMissed | postgres_db/src/diff_log/internal_diff_log_state/manager.rs:98-113 | three documents in three batches after which the log keeps the data of the second one |
| DiffLogFates.LogsLastPackage | diff_log_builder/src/lib.rs:110-276 | over all histories: the package data logged last, with the latest version, are those of the last snapshot |
| DiffLogFates.HistoryPatches | diff_log_builder/src/lib.rs:262-276 | over all histories: the references to each package that changed are patched |
| DiffLogFates.ReturnMissed | diff_log_builder/src/lib.rs:160-189 | three documents after which a version of the last snapshot is deleted |
| DiffLogFates.RemovalMissed | diff_log_builder/src/lib.rs:136-160 | four documents after which a version that the last snapshot lacks is live |
| DiffLogTables.HistoryConserves | relational_db_builder/src/lib.rs:38-68 | for every history whose log is replayed: all dependency counts are right if and only if no version that was first seen with dependencies is removed, forgotten, and removed again |
| DiffLogTables.DeletedTwiceMiscounts | relational_db_builder/src/lib.rs:578-624 | the three documents of `DeletedTwice`, for any version with dependencies: the log is replayed to its end, and leaves a count of the tables wrong |
| DiffLogTables.HistoryLive | relational_db_builder/src/lib.rs:429-624 | for every history whose log is replayed: a version is live in the tables if and only if the snapshots say so |
| DiffLogTables.HistoryLinks | relational_db_builder/src/lib.rs:272-283 | for every history whose log is replayed: each dependency refers to the package of its name if the tables have it, and to nothing otherwise |
| DiffLogTables.TablesFollowSnapshots | relational_db_builder/src/lib.rs:38-68 | for every history whose log is replayed: the tables have a version live just when the last snapshot has it, at every point, if and only if the builder misses no change of it |
| DiffLogReplay.ReplaySucceeds | relational_db_builder/src/lib.rs:38-68 | a replay succeeds if and only if the entry refers to what exists, creates what does not, and its data are right |
| DiffLogReplay.BuilderLogReplays | relational_db_builder/src/lib.rs:38-68 | a log of the builder is replayed to its end if and only if the data of its entries are right: nothing fails for what does not exist or exists already |
| DiffLogReplay.SecondDeleteBreaksCounts | relational_db_builder/src/lib.rs:578-624 | the second deletion of a version with dependencies is accepted, and leaves its counts wrong |
| LogDemands.UpdateCompares | relational_db_builder/src/lib.rs:466-522 | the assertions of an update pass exactly for data with the dependencies, tarball and repository that the row shows |
| LogDemands.NewRowShows | relational_db_builder/src/lib.rs:285-427 | a new version row shows, list by list, the dependencies it was made from, if digests tell them apart |
| LogDemands.ReplayKeepsTexts | postgres_db/src/dependencies.rs:209-242 | no instruction changes the name or the spec of a dependency |
| LogDemands.UniqueMeans | relational_db_builder/src/lib.rs:639-648 | a new version may list no package twice under one kind |
| LogDemands.ReplaysExactly | relational_db_builder/src/lib.rs:38-68 | told without the tables: a log is replayed to its end if and only if it refers only to what it created, creates nothing twice, and each update of a version has the dependencies, tarball and repository that the version was created with |
| LogDemands.BuilderLogFits | relational_db_builder/src/lib.rs:429-576 | so a log of the builder is replayed to its end if and only if its data fit |
| LogDemands.CountsRightWhen | relational_db_builder/src/lib.rs:578-624 | told without the tables: a replayed log leaves all counts right if and only if it never deletes a deleted version that was created with dependencies |
| PackageRows.RowsShowLog | relational_db_builder/src/lib.rs:77-270 | over all replayed logs: a package row has the state of the last entry that creates or updates it, one dated point for each such entry, in each other column what the last entry that sets it says, and the id of its latest version |
| PackageRows.HistoryPackage | relational_db_builder/src/lib.rs:77-270 | so over all histories a package row has the state of the last snapshot, and shows it column by column if it is a normal one |
| VersionRows.RowsTold | relational_db_builder/src/lib.rs:285-624 | over all replayed logs: a version row has what it was created with, the metadata logged last, its state, and one point for each creation, deletion and revival |
| VersionRows.HistoryMetadata | relational_db_builder/src/lib.rs:566-575 | so over all histories its metadata are those of the last snapshot that has the version, if no change was taken for none |
| Download.NeverStarvesIff | downloader/src/download_db.rs:114-154 | for n tasks in chunks of the given size a receive always has a dispatched task to wait for if and only if the size is at least 2 or n is at most 2 |
| Download.EligibleAre | postgres_db/src/download_queue.rs:223-278 | with retries all tasks are eligible, and without them those that have not failed |
| Download.EnoughOutstanding | downloader/src/download_db.rs:114-154 | either everything is dispatched or enough of the last chunk is outstanding |
| Download.ChunkIsNext | postgres_db/src/download_queue.rs:255-278 | the next chunk is exactly the next part of the ordered list of tasks |
| Download.RestStays | postgres_db/src/download_queue.rs:255-278 | although tasks are deleted and marked meanwhile, the query by the last url finds exactly the tasks not yet dispatched |
| Download.Downloader.LoadNext | downloader/src/download_db.rs:120-138 | the refill stores the queue and dispatches the next part of the plan |
| Download.Downloader.ReceiveAll | downloader/src/download_db.rs:114-155 | all tasks report, and no receive waits for nothing |
| Download.Downloader.DownloadToDest | downloader/src/download_db.rs:74-157 | each eligible task is dispatched once and in order; in the end each is either stored and dequeued or marked with its error, and the other rows are untouched |
| WorkerPool.TokensAfter | blob_idx_server/src/job/pool.rs:144-305 | a spawn makes a token, dropping a stale one and retiring a worker destroy one, all other steps move one |
| WorkerPool.StepKeeps | blob_idx_server/src/job/pool.rs:144-305 | every pooled job always has exactly one token, any other at most one |
| WorkerPool.Exclusive | blob_idx_server/src/job/pool.rs:211-305 | in every run no two callers hold one worker, and while it is held no token of it is available |
| WorkerPool.GoneForever | blob_idx_server/src/job/pool.rs:216-219 | a replaced worker never comes back, and its stale token never yields it |
| WorkerPool.NeverLost | blob_idx_server/src/job/pool.rs:144-305 | the token of a pooled worker is never lost |
| WorkerPool.Pool.SpawnWorker | blob_idx_server/src/job/pool.rs:144-165 | spawning performs steps of the protocol, within the limit |
| WorkerPool.Pool.ReplaceWorker | blob_idx_server/src/job/pool.rs:284-289 | so does replacing a worker that is held |
| WorkerPool.Pool.WaitRunning | blob_idx_server/src/job/pool.rs:168-201 | so does waiting for a queued worker, whose token goes back if that fails |
| WorkerPool.Pool.GetWorkerOnce | blob_idx_server/src/job/pool.rs:212-273 | one round of getting a worker returns only a running worker of the pool, with a guard of its own; a stale token yields nothing |
| WorkerPool.Pool.ReleaseGuard | blob_idx_server/src/job/pool.rs:296-305 | dropping a guard makes the worker available again |
| NullEscape.Sanitize | postgres_db/src/change_log.rs:98-157 | the loop computes the machine, and on the text of any token stream replaces exactly the null escapes |
| NullEscape.SanitizeReplaces | postgres_db/src/change_log.rs:98-157 | on the text of any token stream the six states replace each null escape by `[NULL]` and keep every other token |
| NullEscape.NoNullLeft | postgres_db/src/change_log.rs:98-157 | the result is a token stream without a null escape |
| NullEscape.Idempotent | postgres_db/src/change_log.rs:98-157 | sanitising twice is sanitising once |
| NullEscape.MalformedKeepsNull | postgres_db/src/change_log.rs:98-157 | a single text that is no token stream, and that no JSON serialiser produces, keeps its null escape: the theorems need well-formed text |
| NullEscape.OneReading | postgres_db/src/change_log.rs:98-157 | a text is that of one token stream only, so that its null escapes are determined |
| SemverText.IntRoundTrip | semver_spec_serialization/src/lib.rs:77-82 | an integer in range survives printing and parsing |
| SemverText.IdPatternIs | semver_spec_serialization/src/lib.rs:95-97 | the pattern of a prerelease identifier matches every word of letters, digits and hyphens |
| SemverText.MatchIsSound | semver_spec_serialization/src/lib.rs:92-103 | the groups that are found are those of a match of the pattern |
| SemverText.MatchIsComplete | semver_spec_serialization/src/lib.rs:92-103 | a text that the pattern matches is accepted, with the longest possible third number |
| SemverText.DigitsGivenBack | semver_spec_serialization/src/lib.rs:95-97 | the third number gives digits back to a prerelease when it must |
| SemverText.NumbersInOrder | semver_spec_serialization/src/lib.rs:77-105 | three numbers are read in the order major, minor, bug, and refused exactly if one is out of range |
| SemverText.DigitsAre | semver_spec_serialization/src/lib.rs:77-105 | a number is read in decimal |
| SemverText.TagsInOrder | semver_spec_serialization/src/lib.rs:105-127 | tags after the hyphen are read in order, as numbers where they can be, and builds after the plus as text |
| SemverText.TrimStartIs | semver_spec_serialization/src/lib.rs:77-85 | all spaces at the start are taken away, and nothing else |
| SemverText.TrimEndIs | semver_spec_serialization/src/lib.rs:77-85 | the same at the end |
| SemverText.ParseIsPrintable | semver_spec_serialization/src/lib.rs:92-127 | whatever parses has numbers in range and tags that are words or numbers in range |
| SemverText.TagsRoundTrip | postgres_db/src/custom_types/mod.rs:38-89 | prerelease tags survive printing and parsing |
| SemverText.PrintThenParse | postgres_db/src/custom_types/mod.rs:38-60 | a version survives printing and parsing if and only if its numbers are in range and its tags are ones that parsing can yield |
| SemverText.ParsePrintParse | semver_spec_serialization/src/lib.rs:92-127 | parsing, printing and parsing again gives the same version for every text that parses |
| TimeTravel.RestrictIsExact | cluster_compute_jobs/historic_solver_job/src/lib.rs:349-397 | restricting a parsed packument never panics; it gives nothing if nothing was published by then, otherwise exactly the versions published by then, the last one as the latest |
| TimeTravel.RestrictIsMonotone | cluster_compute_jobs/historic_solver_job/src/lib.rs:349-397 | at a later time there are all the versions of an earlier one, and the latest was not published earlier |
| TimeTravel.RestrictComposes | cluster_compute_jobs/historic_solver_job/src/lib.rs:349-397 | restricting twice is restricting to the earlier time |
| TimeTravel.ParsePackument | cluster_compute_jobs/historic_solver_job/src/lib.rs:406-498 | exactly the versions with a time and without a hyphen or plus are kept, sorted by time, so that restricting is safe |
| TimeTravel.RunSolveJob | cluster_compute_jobs/historic_solver_job/src/run_solve_job.rs:91-179 | the job ends at the first solve that ends it, with exactly the result that this solve calls for: done when every version listed is newer than the old one, given up if and only if all 365 solves after the update have one, or one of the five errors; history has the solves in order |
| TimeTravel.AttemptIs | cluster_compute_jobs/historic_solver_job/src/run_solve_job.rs:193-260 | each solve is of the last version published by its time, with the solver's answer for it at that time |
| TimeTravel.SolveTimes | cluster_compute_jobs/historic_solver_job/src/run_solve_job.rs:181-191 | the solves are just before and just after the update, and then a day apart for less than a year |
| TimeTravel.HistoryGoesForward | cluster_compute_jobs/historic_solver_job/src/run_solve_job.rs:181-208 | solve times strictly increase, and the chosen versions never get older |

## Left out

- Git, Hugging Face, HTTP, SSH, Slurm, Redis, Postgres and SQLite transport and encodings, clocks, random choices and the
  solver: their answers are parameters or arbitrary choices.
- Crashes in the middle of a request, cancellation and lost wakeups; nothing is claimed about waiting, only safety.
- AvcStore.Avc.Add: absolute paths, special files and path normalization are not modelled; the backing path is the
  repository path.
- AvcStore.Avc.AbortLastCommit: required to have nothing staged, as staged offsets refer to the aborted sizes otherwise.
- BlobServer.BlobStorage.CreateAndLock: a request that waits for a file is served in a later state in which one is free;
  the source panics when it is configured with no files at all.
- BlobServer.BlobStorage.KeepAliveLock: the error for a cleaner that stops between its removal of the lock and the send is
  not modelled, as a request is one step.
- BlobServer.SharedDisk.StoreIntoBlob: a store that nothing interrupts; `BlobSystem.EveryRunStores` is about all runs.
- BlobSystem.StepKeeps: the offset file next to a blob file is not modelled; it is only appended to.
- RelationalModel.UpsertOk: row ids count insertions. The gaps that the database leaves on conflicts, which depend on how
  many upserts are made, are not modelled.
- RelationalReplay.EntryProcessor.UpdateVersion: the warning about a changed time is not modelled.
- DiffLogModel.SnapshotIsOk: starts from parsed documents; the parsing of times, dependencies and version blobs is not
  modelled.
- LogDemands.ReplaysExactly: requires that no two dependencies of the log have the same digest but different specs.
- DiffLogBuilder.Builder.OldAndNewVersions: versions are visited in an arbitrary order, of which ascending order is one.
- Download.Downloader.DownloadToDest: the table of tasks is fixed while the loop runs, as far as others are concerned; urls
  are their places in its order, and downloading itself is an arbitrary report.
- WorkerPool.Pool.SpawnWorker: on a full channel the source waits until it can send; a send is one step here, and needs room.
- WorkerPool.Pool.ReplaceWorker: likewise.
- WorkerPool.Pool.WaitRunning: likewise.
- WorkerPool.Pool.ReleaseGuard: likewise.
- WorkerPool.Pool.GetWorkerOnce: the loop around it repeats it while it says to try again; `populate` is not modelled.
- SemverText.MatchIsComplete: ASCII text only. The derived order of versions is not claimed to be that of Semantic
  Versioning 2.0.0; a prerelease is accepted more loosely than its items 9 and 10 say.
- TimeTravel.ParsePackument: the trimming of version data is not modelled, and dates are parsed already.
- TimeTravel.RunSolveJob: versions of the updated package are their places in the derived order, and version names are
  taken to parse.
- `url_depth`, `get_filename`, `enqueue_chunk`, metrics, analysis binaries and repository-url parsing: they would only add
  easy members.
