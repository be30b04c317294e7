# NovaHyper backup store: a verified model

This project models the backup side of NovaHyper in Dafny 4.11 and proves what it keeps over whole
runs.  `dafny verify dfyconfig.toml` checks all of it.

What is modelled:

- the content-defined chunker with its rolling fingerprint and 48-slot ring buffer (`Fingerprint`, `Chunker`, `ChunkerLaws`);
- the deduplicating chunk store: index rows with reference counts, chunk files, write, restore,
  release and garbage collection, as a class that changes its fields in place (`ChunkStore`), as
  operations on values (`StoreSpec`, `Restore`, `Ledger`, `Owners`), over whole runs (`StoreRuns`, `Dedup`),
  and split at every await for concurrent calls (`Interleaving`, `SweepSafety`, `Hazards`);
- the backup job: reading disks or dirty ranges (`DiskRanges`), `run_backup` (`BackupService`), and the
  protocol of endpoints, message stream and consumer (`BackupProtocol`, `BackupChains`, `BackupSystem`);
- jobs and store in one run (`JobRuns`);
- month arithmetic, the calendar and partition provisioning (`Partitions`).

`Bytes`, `Slices`, `Sorting`, `Codec` and `JobTypes` hold what these share.  Functions on values specify
the methods; the theorems about them are lemmas, and each method's `ensures` ties it to its function.

## Hypotheses

They appear as `requires` clauses or named predicates and nowhere else.

- `Codec.Sound`: on the chunks that are ever written, SHA-256 has no collision, the LZ4 decoder undoes
  the encoder, and no chunk stored raw decodes as a frame of something else.  `Codec.ReadBackIff` shows
  that the last of these is exactly what a chunk needs in order to read back.
- All calls on one store use the same settings (`Codec` and `Params` are constants of the store).
  Nothing is asked of the three size settings.
- `Interleaving.Safe`, a condition on single steps around a running sweep: no commit of a chunk that the sweep
  is about to unlink, or has unlinked and nobody has put back; no unlink of a file that a writer has put in
  place and not yet indexed; no row delete of an unreferenced chunk that a writer has found and not yet
  counted up; no end or error of the sweep between the two deletions of a chunk that nobody references and
  nobody has put back.  `SweepSafety.SafeIff` shows that nothing weaker will do: after any other step, safe steps
  alone can lead to a running backup or a live manifest without one of its files.  The condition follows from
  the cruder rule that no write is between its lookup and its commit for a chunk still to be swept, as long
  as the sweep itself goes on (`Interleaving.NoOverlapIsSafe`).
- `BackupProtocol.Orderly`: the ack that follows a committed success is not lost, unless no delivery is left,
  and a cancel request does not write after the job has become a success since its status check.  Only
  `BackupProtocol.Good`, the correspondence of successes, manifests and parents, rests on it, and exactly so:
  `BackupProtocol.OrderlyIff`, `BackupProtocol.RunsGoodIff`.  That no job has two manifests, that chains go
  back in time and end, when they are whole, when a success or a cancellation is final, what one delivery does,
  and everything in `JobRuns` hold in every run.  One handler works at a time, and manifests get strictly
  increasing creation times.
- `StoreRuns.DiskAgreesIff` alone also asks that the decoder rejects the empty string.
- SQL statements, file renames and unlinks are single atomic steps.

## Where the code and its own words differ

- The comment at `dedup/chunk_store.py:125` says a slide removes the outgoing byte's contribution.  It
  does not: `Fingerprint.WindowNeverForgets`.
- The docstring at `dedup/chunk_store.py:378-382` describes a gap between two passes that protects backups
  in flight.  There is one pass and no gap: `Hazards.OverlapLosesBackup`, `SweepSafety.SafeIff`.
- Garbage collection goes by the index.  A file whose backup raised before its row was inserted is never
  collected: `StoreRuns.OrphansIff`, `Hazards.AbortLeavesFile`.
- `cancelled` reads like a final state.  A run that has loaded the job overwrites it:
  `BackupChains.CancelFinalIff`, `BackupChains.RunOverwritesCancelled`.
- `app/services/backup_service.py:18-19` lets a restore walk from the newest backup to the last full one.  An
  incremental backup can be committed with no full one in its chain although its VM has one, as the parent
  query skips manifests whose job is no longer a success: `BackupChains.LateCancelBreaksChain`,
  `BackupChains.ChainsInRunIff`.
- `write_disk` speaks of one disk per manifest, while a job's manifest concatenates its disks' references
  with offsets that restart at 0, and those of an incremental job count from the gathered ranges:
  `BackupService.JobTilesIff`, `BackupService.JobRestoresIff`, `BackupService.IncrementalRestoresIff`.

## Model

| member | source | states |
|---|---|---|
| Fingerprint.InitTables | dedup/chunk_store.py:60-67 | the in-place table loop leaves in every slot the byte shifted eight times through the linear register |
| Fingerprint.MaskedRotation | dedup/chunk_store.py:128 | shifting wider integers and masking to 64 bits is exactly a 64-bit rotation, so no bit is lost by the word size |
| Fingerprint.OutEntryXor | dedup/chunk_store.py:64-67 | the table is linear over GF(2): the entry of a xor is the xor of the entries |
| Fingerprint.SingleBitEntries | dedup/chunk_store.py:49-67 | the entries of the eight single-bit bytes as numbers, which by linearity fix the whole table |
| Fingerprint.FpLinear | dedup/chunk_store.py:122-132 | the fingerprint of the difference of two equally long streams is the difference of their fingerprints |
| Fingerprint.FpClosedForm | dedup/chunk_store.py:117-132 | after any bytes since a cut, the fingerprint is the xor of each byte rotated by its age and, once evicted, of its table entry rotated by the time since |
| Fingerprint.WindowNeverForgets | dedup/chunk_store.py:125-129 | two chunks that differ in one byte have equal fingerprints at a later position exactly when they do not differ: the 48-byte window forgets nothing |
| Chunker.RingStep | dedup/chunk_store.py:126-132 | the slot about to be overwritten holds the byte seen 48 slides ago, or 0, and writing the new byte keeps that so |
| Chunker.RabinCdcChunks | dedup/chunk_store.py:93-150 | the loop with ring buffer, running fingerprint and resets yields exactly the chunks of the recursive specification, for any settings |
| ChunkerLaws.MaskIsNextPowerOfTwo | dedup/chunk_store.py:103-110 | the mask is one less than the least power of two that is not below the target size; a target below 1 counts as its mirror image above 1 |
| ChunkerLaws.HitsMagicIff | dedup/chunk_store.py:110-140 | and-ing with the mask and comparing with half of it picks out one residue of the fingerprint, so one of every mask + 1 evenly spaced values ends a chunk |
| ChunkerLaws.ChunksIff | dedup/chunk_store.py:113-150 | the chunks are the one tiling of the stream in which each chunk ends at its first length of at least the minimum at which the closed-form fingerprint falls in the residue class of the mask or the maximum is reached |
| ChunkerLaws.ChunksTile | dedup/chunk_store.py:113-150 | the chunks partition the stream: contiguous offsets, none empty, each showing its own bytes, together the data |
| ChunkerLaws.ChunkSizes | dedup/chunk_store.py:135-150 | every chunk but the last has a length in [lo, hi] and the last one in [1, hi] |
| ChunkerLaws.ChunkCount | dedup/chunk_store.py:135-150 | the number of chunks lies between ceil(n/hi) and ceil(n/lo) |
| ChunkerLaws.ChunksShift | dedup/chunk_store.py:141-142 | cuts do not depend on where in a stream the bytes lie |
| ChunkerLaws.ResumeAtBoundary | dedup/chunk_store.py:142-146 | chunking afresh from any produced boundary gives the remaining chunks |
| ChunkerLaws.Resynchronise | dedup/chunk_store.py:140-146 | two streams that each have a boundary where their remaining bytes agree have the same chunks from there on, at shifted offsets |
| ChunkerLaws.AppendStable | dedup/chunk_store.py:122-150 | appending bytes changes no chunk but the last, which is chunked again together with them |
| ChunkerLaws.ChunksAppendClosed | dedup/chunk_store.py:140-146 | after a stream that ends on a cut, the next bytes are chunked as a stream of their own |
| ChunkerLaws.EditKeepsEarlierChunks | dedup/chunk_store.py:122-150 | two streams with a common start share every chunk that is closed inside it |
| ChunkerLaws.UniformDiskChunks | dedup/chunk_store.py:122-150 | a disk of one repeated byte has at most two distinct chunks, whatever its length and the settings |
| Codec.Payload | dedup/chunk_store.py:302-339 | what is stored for a chunk is the shorter of chunk and frame, the chunk if they are equally long, and never a frame when compression is off |
| Codec.ReadBackIff | dedup/chunk_store.py:327-347 | a chunk reads back as written exactly when it is not a raw-stored chunk that decodes as a frame of something else |
| Codec.RawFrameIsCorrupted | dedup/chunk_store.py:302-347 | a concrete chunk that comes back decoded, with compression on and off |
| Sorting.SortUndoesPermutation | dedup/chunk_store.py:368 | sorting any permutation of a sequence with distinct ascending keys gives the sequence back |
| StoreSpec.StorePiecesKeeps | dedup/chunk_store.py:252-313 | storing chunks adds exactly one reference for each and keeps every row backed by its right file |
| StoreSpec.DecrementAllKeeps | dedup/chunk_store.py:408-457 | releasing held references lowers each count by its multiplicity: the clamp at zero never acts |
| StoreSpec.SweptKeeps | dedup/chunk_store.py:388-403 | a sweep leaves exactly the rows that something references, with their files and counts |
| Restore.ReferencesSort | dedup/chunk_store.py:364-368 | any permutation of a disk's references sorts to disk order |
| Restore.RestoreAnyOrder | dedup/chunk_store.py:351-372 | sort and slice-assign give the disk back for any order of its references, if each file is right when its own chunk is read |
| Restore.RestoreAnyTotal | dedup/chunk_store.py:357-360 | whatever total_bytes says, the whole disk comes back, followed by zeros if it says too much |
| Restore.PinnedManifestRestores | dedup/chunk_store.py:351-372 | in a consistent store a manifest whose references are all counted restores to its disk |
| Ledger.StorePiecesBalance | dedup/chunk_store.py:249-270 | what a backup reports as newly written is what the index grows by |
| Ledger.UniqueAtMostTotal | dedup/chunk_store.py:264-270 | unique_bytes never exceeds total_bytes, and total_bytes is the disk's length |
| Ledger.SweptBalance | dedup/chunk_store.py:388-406 | what a sweep reports as freed is what the index shrinks by, and the next sweep would report nothing |
| Ledger.SweepReports | dedup/chunk_store.py:388-406 | in any store eligible and deleted are the number of rows that go, and freed_bytes what the disk is relieved of |
| Ledger.DiskBytes | dedup/chunk_store.py:301-313 | the disk holds the bytes of the index and those of the files without a row |
| ChunkStore.ChunkStore.WriteChunk | dedup/chunk_store.py:280-313 | a known chunk gets one more reference and nothing else changes; a new one gets its file, compressed exactly if enabled and shorter, and a row with count 1; the result says which |
| ChunkStore.ChunkStore.WriteDisk | dedup/chunk_store.py:233-278 | the imperative backup stores the specified chunks in order and returns the specified manifest; when a statement raises, the chunks before it stay stored and at most one file is left without a row |
| ChunkStore.ChunkStore.ReadManifest | dedup/chunk_store.py:351-372 | the imperative restore is the specified sort-and-patch; a missing file is an error |
| ChunkStore.ChunkStore.DecrementRefs | dedup/chunk_store.py:408-415 | the imperative release lowers the count of every listed reference |
| ChunkStore.ChunkStore.DbDecrementRef | dedup/chunk_store.py:451-457 | the count of the chunk goes down by one, or stays at zero; its sizes, every other row and all files are as before |
| ChunkStore.ChunkStore.DbInsertChunk | dedup/chunk_store.py:430-441 | the count of the chunk goes up by one, from zero if it had no row; a row that is there keeps its sizes, every other row and all files are as before |
| ChunkStore.ChunkStore.DbGetZeroRefChunks | dedup/chunk_store.py:467-472 | each row with count zero once, and no other |
| ChunkStore.ChunkStore.Gc | dedup/chunk_store.py:376-406 | the loop, in any row order, removes exactly the unreferenced rows and files and reports their number and the bytes that leave the disk; a dry run reports the same and changes nothing |
| StoreRuns.DoRelease | dedup/chunk_store.py:408-457 | a release takes away exactly the claim of its manifest and keeps the store sane |
| StoreRuns.RunsStaySane | dedup/chunk_store.py:233-415 | over every run of backups, backups that raise anywhere, releases and sweeps: rows backed, counts equal to claims, bytes balanced |
| StoreRuns.LiveManifestsRestore | dedup/chunk_store.py:233-415 | at every moment of every run each unreleased manifest restores to exactly the bytes backed up, with its references in any order |
| StoreRuns.CountsConserved | dedup/chunk_store.py:252-262 | each count is at least the chunk's multiplicity over unreleased manifests, and equal to it when no backup aborted |
| StoreRuns.BytesBalance | dedup/chunk_store.py:249-270 | bytes written minus bytes freed equal the bytes in the index; the disk holds those and the bytes of files without a row |
| StoreRuns.OrphansIff | dedup/chunk_store.py:301-306 | a file is without a row exactly when some backup raised between placing it and inserting its row, and no chunk with its hash has been stored since |
| StoreRuns.DiskAgreesIff | dedup/chunk_store.py:249-313 | index and disk hold the same number of bytes exactly when no file has been left without its row |
| StoreRuns.SweepLeavesOnlyReferenced | dedup/chunk_store.py:376-406 | after a real sweep exactly the referenced chunks are left in the index, on disk their files and those that no row knew before, and the next sweep reports zero |
| Dedup.CountsGrow | dedup/chunk_store.py:291-306 | storing chunks raises each count by the chunk's multiplicity, in any store |
| Dedup.LiveDataIsFree | dedup/chunk_store.py:252-262 | at every moment of every run, backing up the data of an unreleased manifest writes 0 bytes, touches no file and raises each count by its multiplicity |
| Dedup.CopiesCostOne | dedup/chunk_store.py:252-313 | any number of copies of a block that ends on a cut cost what one copy costs |
| Dedup.UniformDiskCost | dedup/chunk_store.py:252-313 | a disk of one repeated byte, of any size, writes at most two files, and no more bytes than two chunks can have |
| Interleaving.CommitKeepsGood | dedup/chunk_store.py:291-306 | the increment after a hit, and the insert after a miss that another writer may have overtaken, both end in one more reference on a backed row, also between the two deletions of a sweep if the file is back |
| Interleaving.SweepStepKeepsGood | dedup/chunk_store.py:388-403 | after each of a sweep's two deletions every row but the one in between has its right file |
| Interleaving.DropNeverClamps | dedup/chunk_store.py:451-457 | among any concurrent calls, the count that a release lowers is above zero |
| SweepSafety.SafeIff | dedup/chunk_store.py:280-403 | a step of any call or of the sweep is safe if and only if safe steps after it can never lead to a running backup or live manifest without one of its files |
| SweepSafety.SafeInRunsIff | dedup/chunk_store.py:280-403 | in every run, up to and including its first unsafe step, nothing is lost and the step is safe exactly when loss stays out of reach |
| SweepSafety.NextSweepRepairs | dedup/chunk_store.py:388-403 | a sweep that dies between its two deletions leaves a row that the next sweep removes, if no backup has looked it up before |
| Interleaving.NoOverlapIsSafe | dedup/chunk_store.py:378-382 | keeping writes in progress away from the chunks still to be swept, as the docstring's gap is meant to, makes every step safe but a stop of the sweep itself between its two deletions |
| Interleaving.RunsStayGood | dedup/chunk_store.py:280-472 | over all interleavings of writes split at their awaits, releases, deaths at any point and sweep steps: every row backed by its right file, each count equal to the references held |
| Interleaving.CountsDuringRun | dedup/chunk_store.py:430-457 | over all interleavings each count is the number of inserts and increments completed minus the decrements |
| Interleaving.RestoreDuringRun | dedup/chunk_store.py:351-403 | a restore whose reads are spread over a run returns the disk if the manifest is live at each read |
| Interleaving.UninterruptedWrite | dedup/chunk_store.py:287-313 | the steps of a chunk write, run in a row, do what the whole call does |
| Interleaving.NobodyIsStuck | dedup/chunk_store.py:280-415 | in every good state every call can take its next step or die, and so can a sweep |
| Hazards.AbortLeavesFile | dedup/chunk_store.py:303-306 | a concrete run in which a backup raises after placing a file, and a sweep leaves that file behind |
| Hazards.BackupRestoresIff | dedup/chunk_store.py:290-299 | what a backup returns restores exactly when every chunk that the index already knew had its file |
| Hazards.OverlapLosesBackup | dedup/chunk_store.py:376-403 | a concrete run in which a sweep overlaps a write and a finished backup cannot be restored |
| DiskRanges.ReadDiskRanges | app/services/backup_service.py:77-99 | the loop returns the slices in offset order, or the whole disk when there are no ranges |
| DiskRanges.DeltaIsCoveredBytes | app/services/backup_service.py:93-99 | disjoint ranges, in any order and also beyond the end of the disk, yield exactly the covered bytes in ascending position |
| DiskRanges.DeltaLength | app/services/backup_service.py:93-99 | ranges read as many bytes as their lengths within the disk add up to |
| DiskRanges.DeltaRebuildsDisk | app/services/backup_service.py:93-99 | the delta patched over an old disk that differs only inside the ranges gives the new disk |
| BackupService.BackupDisk | app/services/backup_service.py:224-253 | one disk: dirty ranges or all of it are stored and counted; an unreadable image changes nothing, and a store that raises keeps what was stored before |
| BackupService.RunBackup | app/services/backup_service.py:151-222 | the job succeeds with a manifest exactly when every enabled disk can be read and stored and the parent query answers; then the reference lengths sum to bytes_read, the bytes of all enabled disks, and bytes_written is at most that |
| BackupService.JobAccounting | app/services/backup_service.py:173-203 | the books of a job, also of one that raises, and the growth of the index by what it wrote and what the call that raised had written |
| BackupService.JobPins | app/services/backup_service.py:173-221 | a job counts exactly the references it stored, also when it fails half-way, and a job that does not fail lists them all |
| BackupService.JobDisksRestore | app/services/backup_service.py:182-197 | after a success each enabled disk restores from its own stretch of the job's references, which begins where the disks before it end |
| BackupService.WholeDiskRestores | app/services/backup_service.py:82-106 | in a full job, without a bitmap, or with an empty answer, the whole image comes back from that stretch and counts as read, a megabyte of zeros if there is no image |
| BackupService.DirtyDiskRestores | app/services/backup_service.py:91-99 | otherwise the slices in offset order come back, for disjoint ranges the dirty bytes, and only these count as read |
| BackupService.UnreadableOrDisabled | app/services/backup_service.py:174-177 | an enabled disk whose image cannot be read makes the job fail, and a disk that is not enabled changes nothing |
| BackupService.JobTilesIff | app/services/backup_service.py:183-193 | the references of a job lie end to end over the bytes it read exactly when at most one enabled disk yields any bytes |
| BackupService.OneDiskJobRestores | app/services/backup_service.py:183-193 | then the job's manifest restores through `read_manifest` to the bytes of that disk |
| BackupService.JobRestoreTail | app/services/backup_service.py:183-193 | with any number of disks `read_manifest` succeeds, and everything beyond the longest disk comes back as zeros |
| BackupService.JobRestoresIff | app/services/backup_service.py:183-193 | a job whose bytes do not end in a zero restores to its disks one after the other exactly when at most one of them yields bytes |
| BackupService.TwoDisksRestore | app/services/backup_service.py:183-193 | a job of two one-byte disks, whose manifest restores to the disks one after the other only if both are zero |
| BackupService.IncrementalRestoresIff | app/services/backup_service.py:231-246 | an incremental job of one disk restores to its slices moved together, for any ranges; for disjoint ranges that is the disk exactly when they cover it |
| BackupProtocol.CreateCheckKeepsGood | app/api/v1/endpoints/backups.py:49-59 | auto-promotion accepts an incremental request only if its VM has a full backup with a manifest |
| BackupProtocol.CreateInsertKeepsGood | app/api/v1/endpoints/backups.py:61-81 | whatever happens between the count and the insert, the new job may be incremental only if its VM has such a backup |
| BackupProtocol.CommitKeepsGood | app/services/backup_service.py:187-221 | the final commit gives the job its only manifest, whose parent is the VM's newest one |
| BackupProtocol.OrderlyIff | app/workers/backup_consumer.py:67-93 | from a good state a step of any endpoint, delivery, commit or crash keeps success exactly when one manifest, and parents right, if and only if it loses no ack of a success that may be redelivered and writes no late cancel |
| BackupProtocol.RunsGoodIff | app/workers/backup_consumer.py:67-93 | over all interleavings of creates split at the insert, cancels, up to three deliveries, failed commits and crashes: every state is good exactly when every step is of that kind |
| BackupProtocol.NeverTwoManifests | app/models/__init__.py:293 | in every run, with no hypothesis, a success has exactly one manifest and no job ever has two |
| BackupProtocol.DeliveriesCounted | app/workers/backup_consumer.py:45-53 | in every run the count of a message is the number of its deliveries, and that is at most three |
| BackupProtocol.AckedBySettling | app/workers/backup_consumer.py:79-90 | a message becomes acked only by the ack after a refused load or a committed end |
| BackupChains.LineageIsComplete | app/services/backup_service.py:255-267 | a VM's lineage lists each of its earlier manifests exactly once, strictly back in time |
| BackupChains.ChainIsLineage | app/services/backup_service.py:188-198 | following parent_manifest_id walks exactly that lineage, within one VM, and ends |
| BackupChains.ChainEndsInFull | app/services/backup_service.py:18-19 | every chain ends in a full backup |
| BackupChains.ChainsGoBack | app/services/backup_service.py:255-267 | in every run every chain stays in one VM, goes strictly back in time and ends |
| BackupChains.StepWholeIff | app/services/backup_service.py:188-221 | a step keeps all chains whole exactly when it is not a commit of a manifest whose parent is not the VM's newest, and keeps a full backup at the end of each exactly when it is not a commit of an incremental without a parent |
| BackupChains.ChainsInRunIff | app/services/backup_service.py:188-221 | in every run all chains are whole lineages exactly when every commit had the VM's newest manifest as its parent, and all end in a full backup exactly when every commit had a parent or was full |
| BackupChains.QueryFindsNewestIff | app/services/backup_service.py:255-267 | the parent query finds the VM's newest manifest exactly when its job is a success at that moment |
| BackupChains.LateCancelBreaksChain | app/api/v1/endpoints/backups.py:117-139 | a concrete run with one late cancel that ends with a successful incremental whose chain has no full backup |
| BackupChains.ManifestIsFinal | app/models/__init__.py:293 | in every run, once a job has a manifest it keeps that one and never gets another |
| BackupChains.SuccessFinalIff | app/workers/backup_consumer.py:67-93 | in every state of every run, a success is final in every continuation exactly when no cancel request has it checked and no message of it can still lead to a run |
| BackupChains.LostAckUndoesSuccess | app/workers/backup_consumer.py:88-93 | a concrete run in which a lost ack turns a success back into a running job |
| BackupChains.LateCancelUndoesSuccess | app/api/v1/endpoints/backups.py:117-139 | a cancel checked before and written after the final commit leaves a cancelled job with a manifest |
| BackupChains.CancelledBeforeLoad | app/workers/backup_consumer.py:79-88 | a job cancelled before the handler has loaded it never reaches the store and stays cancelled |
| BackupChains.CancelFinalIff | app/services/backup_service.py:162-221 | a cancelled job is cancelled in every continuation exactly when no run of it is under way that will write its status |
| BackupChains.RunOverwritesCancelled | app/services/backup_service.py:187-221 | a concrete run, every ack kept and every cancel in time, in which a cancelled job ends as a success |
| BackupSystem.Platform.CreateBackupJob | app/api/v1/endpoints/backups.py:42-83 | 404 exactly for no or a deleted VM, 409 exactly while it is provisioned, else one queued job, incremental exactly if asked for and the VM has a successful full one, and its message |
| BackupSystem.Platform.CountFullSuccesses | app/api/v1/endpoints/backups.py:51-57 | the number of the VM's successful full jobs |
| BackupSystem.Platform.CancelBackupJob | app/api/v1/endpoints/backups.py:116-139 | 404 exactly for no job, 409 exactly for one that has ended, else that job and nothing else becomes cancelled |
| BackupSystem.Platform.GetParentManifestId | app/services/backup_service.py:255-267 | a manifest whose job is a success of the VM with no later one that is, or none if there is none |
| BackupSystem.Platform.Handle | app/workers/backup_consumer.py:67-93 | one delivery, run alone, first or repeated, is the protocol's steps in a row |
| BackupSystem.Platform.Consume | app/workers/backup_consumer.py:57-64 | one round of the loop counts one delivery of its message, touches no other, and ends with a free handler |
| BackupSystem.HandledOutcome | app/workers/backup_consumer.py:67-93 | the whole state after a delivery, first or repeated: acked exactly if refused or ended by a commit, else pending again; the job's status; at most one new manifest, of this job, with the VM's newest success as parent; all else unchanged |
| JobRuns.RunsStaySane | app/services/backup_service.py:151-222 | over every run of jobs, failures, redeliveries, releases and sweeps the store counts exactly the references of unreleased manifests, of the one about to be committed and of failed runs |
| JobRuns.SuccessfulJobsRestore | app/services/backup_service.py:182-221 | in every state of every run a successful job has exactly one manifest, and unless it is released every enabled disk restores from its own stretch of it |
| JobRuns.CountsExplained | app/services/backup_service.py:182-221 | each count exceeds the multiplicity over unreleased manifests and the one about to be committed by exactly the references that failed runs left behind |
| JobRuns.SweepsInRuns | dedup/chunk_store.py:376-406 | in every run a real sweep leaves exactly the chunks that a manifest or a failed run still references, and a dry run changes nothing |
| Partitions.MonthOffsetLaws | app/services/partition_manager.py:15-19 | an offset moves the running month index by that much, to a real month, and offsets compose |
| Partitions.IndexInjective | app/services/partition_manager.py:16 | months and running indices correspond one to one |
| Partitions.FirstOfMonth | app/db/migrations/versions/0005_usage_events_partitioning.py:38-39 | adding up month lengths gives the closed Gregorian day number of the first of every month |
| Partitions.ExactlyOneMonth | app/db/migrations/versions/0005_usage_events_partitioning.py:38-47 | month ranges meet end to end and never overlap |
| Partitions.UsageTable.CreateMonthlyPartition | app/db/migrations/versions/0005_usage_events_partitioning.py:31-52 | the month's partition and log row exist afterwards, from the day number of its first to that of the next month's first, and nothing else changes |
| Partitions.UsageTable.EnsurePartitionsExist | app/services/partition_manager.py:22-32 | the current month and the next two have partitions |
| Partitions.UsageTable.RunOnce | app/services/partition_manager.py:42-47 | after a run every month provided by it or an earlier run has its partition |
| Partitions.CoveredIff | app/services/partition_manager.py:24 | a run provides for a later instant exactly when that is at most two months ahead |
| Partitions.FiftyNineDays | app/services/partition_manager.py:24 | 59 days after any instant are still within the next two months |
| Partitions.InExactlyOnePartition | app/services/partition_manager.py:22-32 | with runs at most 59 days apart every instant since the first lies in exactly one existing partition |
| Partitions.SixtiethDayMayBeMissing | app/services/partition_manager.py:24 | 59 days and a second after the last second of a year before a common year there may be no partition |

## Left out

- SHA-256, LZ4, the file system and SQLAlchemy: functions with stated laws, and single atomic steps; temp-file names are not modelled; an error while a sweep deals with one chunk is a step of `Interleaving`.
- `_MOD_TABLE` and the discarded first loop of `_init_tables`: the chunker does not read them.
- `_chunk_path`: files are keyed by the digest itself, as joining the two path components gives it back.
- `dedup_ratio`, `stats` and log lines: rounding and aggregation only.
- The generator form of the chunker: the method returns the whole list, the interleaved model takes the chunks one by one.
- Two sweeps at once: the step model runs one sweep at a time.
- The jobs of `JobRuns` run their disks in one step; a death in the middle of a disk is a run that raises there and then crashes, and interleaved chunk writes are in `Interleaving`.
- QMP, dirty bitmaps and guest writes: dirty ranges are an arbitrary input, empty when the query fails.
- The restore engine over a manifest chain: it is described in a docstring and not implemented, so only the chain's shape is proved.
- Session nesting, row-level security and tokens: library and database behaviour; that a job or VM is not visible is an input of the load step.
- Malformed messages: they are acked without effect.
- Removal of manifests and jobs by cascades: no endpoint releases a manifest; `decrement_refs` is an operation of its own, at most once for a manifest.
- VM power actions, tenants, metering, audit, notifications, the frontend and the other migrations: small tables, single branches or library wrappers that would only add easy members.
- The partitions that the migration creates itself, and years beyond 9999.
