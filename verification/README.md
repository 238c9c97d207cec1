# Verified model of the A6L flashing tools

The tools in this repository overwrite raw eMMC ranges of a phone: a wipe install and its restore,
a data-keeping update and its rollback, an adb and a Firehose transport, and a few offline tools
beside them (ramdisk editing, the linker audit, touch decoding). They promise three things that no
single function states: nothing outside an allowlist ever changes, a stopped run can be undone (from its
snapshot or backup; a run that keeps neither only where no transfer was torn), and a report that
says "verified" is right. This project models the tools in Dafny and proves those
promises for every disk content, every image set, every partition table and every stopping point;
where the code keeps one only under a condition, that condition is proved exact.

## How it is modelled

- The disk is an array of bytes; a range is `(start, sectors)` in 512-byte sectors (`Disk`). The
  partition table is a value with a validity predicate (ranges on the disk, pairwise disjoint, apart
  from the GPT, metadata and userdata larger than their zeroed heads); the real table satisfies it
  (`Layout.A6lIsValid`) and every theorem holds for any valid table.
- SHA-256 is an arbitrary total function. Nothing assumes it injective: a theorem that needs two
  particular byte strings not to collide says so in a hypothesis.
- `Devices.Device` is the file device generalised: it may stop answering at any operation (`lifetime`)
  having taken any prefix of its payload (`torn`), the range of a failed program may then hold anything
  (`scar`), as it may over adb (`Adb.SentFills`), and a faulty device may change the disk arbitrarily at
  every program (`warp`). A device that does not is `Faithful`. Reads are truthful and are recorded, with
  programs and power, in the event log.
- `Sessions.Session` keeps the report and the capture directory, including the report as last saved,
  because rollback and restore decide from those files. Saving can fail at any point (`room`).
- A run is a method that works step by step on the session. What it may leave is a predicate over the
  snapshots before and after (`UpdateRun.RunEnd`, `Rollbacks.RollbackEnd`, `Installs.InstallEnd`,
  `Restores.RestoreEnd`), and the theorems are about those predicates, or are methods that run two
  runs one after the other (`UpdateTheorems.UpdateThenRollback`, `UpdateTheorems.RehearseThenUpdate`,
  `WayBack.UpdateThenBack`, `InstallTheorems.InstallThenRestore`).

| files | tool |
|---|---|
| `Disk`, `Options`, `Outcomes`, `Streams`, `Device`, `Session`, `Orders`, `Phases` | disk, shared values, streams, device, session, the write and readback loops |
| `Layout`, `UpdateLayout`, `Gpt`, `Compat` | tables, plans, guards, the GPT check, build compatibility |
| `Survey`, `UpdateSurvey`, `UpdateEngine`, `UpdateRun`, `Rollback`, `UpdateTheorems`, `WayBack`, `Damage` | update and rollback |
| `Install`, `Restore`, `InstallTheorems` | install and restore |
| `Adb`, `AdbRead` | the adb transport |
| `Firehose` | recovery programming |
| `Newc`, `NewcLimits`, `Linker`, `Symlinks`, `Touch` | ramdisk editing, linker audit, symlink resolution, touch decoding |

## What a reader may not expect

- "Verified" is a claim about the image partitions as they end only without a wipe and for partitions
  that were not skipped. A wiping update reads the images back before it programs the two zeroed heads
  and not again, and a partition skipped as unchanged is neither read back nor among the protected
  regions. Without a wipe, a passed update has put the new image in every partition it did not skip, on
  every device that answers reads truthfully and but for a digest collision (`UpdateTheorems.PassedHead`).
  With a wipe, or in a skipped partition when another one is written, a faulty device can damage an image
  at its last program: the run passes and reports both claims (`Damage.SpoiledUpdate`). In no other case
  can it (`Damage.UnexposedHead`). On a faithful device the images are always there
  (`UpdateTheorems.FinishedHead`).
- Only the capture of a snapshot update without a wipe can be rolled back (`WayBack.WhichCapturesServe`,
  `WayBack.NeverRolledBack`). For the others the messages and the module text say to flash the previous
  kit. As an update with the kits exchanged and `--reflash` that is accepted if and only if that job is
  itself all right and every head is the image of one of the two kits (`WayBack.UpdateThenBack`): it is
  refused where a torn transfer left a head that is neither, and whenever the update raised the SDK or a patch level
  (`WayBack.ExchangedPermitted`). It puts the images back, not what lay behind a shorter one.
- A rehearsal that passed promises that the update passes on a working device, with one exception: a
  hash-only update also refuses previous-image lengths that are not whole sectors, which a rehearsal,
  hashing saved copies, accepts (`UpdateTheorems.RehearseThenUpdate`).
- The ramdisk edit reads back as meant if and only if the replaced data, the new data and the new
  inode are below 2^32: `%08X` prints a ninth digit from there on (`Newc.EditReadsIff`). An archive with
  an entry of inode 0xFFFFFFFF parses and can be edited, yet never reads back (`NewcLimits.LastInodeFails`).
  The self-check refuses every such result unless the archive has an entry with an empty name or one that
  begins with a digit or a letter A-F (`Newc.MisfitRefused`). Where the files put in are below 4 GiB and
  the edited archive below 256 MiB only an empty name makes an exception (`NewcLimits.NamelessOnly`), and by
  one the check can be misled (`NewcLimits.SelfCheckMisled`); larger archives with the other kind of name
  are not decided.
- A wipe range is never partly written with a bad payload only because it is shorter than one 256 MiB
  chunk, so nothing is flushed before the whole stream was seen (`Adb.NonZeroWritesNothing`). Both heads
  of the phone are (`Adb.A6lHeadsAreShort`).
- `resolve_file` reports a chain of 32 honest symlinks as a cycle (`Symlinks.LongChainRaises`); a real
  cycle is always reported (`Symlinks.CircleRaises`).
- An update started from a layout-valid table never stops with "readback differs" or "protected regions
  changed" on a faithful device: those stops only ever report a device fault (`UpdateRun.RunUpdate`).

## Model

| member | source | states |
|---|---|---|
| UpdateTheorems.UpdateThenRollback | tools/RomUpdateEngineV1.py:98-325 | for every disk, job, failure point and any content a failed transfer leaves of a snapshot update: no manifest means nothing was written; otherwise the rollback from its capture passes and puts the four partitions back bit for bit, keeping everything the phone changed elsewhere meanwhile; undisturbed, the whole disk is as before; with nothing failing the update passes exactly for a right job on the expected build |
| UpdateTheorems.RehearseThenUpdate | tools/RomUpdateEngineV1.py:204-215 | a rehearsal changes nothing, whatever fails in it; if it passed, the same job's update passes on a working device exactly if the previous image lengths can be hashed on the device or copies are saved; if nothing failed in the rehearsal the update passes only if it did |
| WayBack.UpdateThenBack | tools/RomUpdateEngineV1.py:98-255 | for every update that may stop anywhere, hash-only and wiping ones too: once it wrote its manifest, the update with the kits exchanged and reflash passes exactly if that job is all right and every head is the image of one of the kits; refused, it writes nothing; a finished update leaves such heads; passed, the previous images are back, and undisturbed with no longer new image and no wipe the whole disk is as before |
| UpdateRun.RunUpdate | tools/RomUpdateEngineV1.py:98-255 | every way run_update can end. Without a manifest the disk is untouched, no claim is made and nothing but reads is in the log; a manifest means the job and the phone are as every check asks. An update that goes on changes only the planned ranges on a faithful device, every claim in its report in memory and as last saved is true of the disk (of the images in a wiping run: on a faithful device), and its journal accounts for every partition. A rehearsal programs nothing, never claims a readback, and touches power only last and after the regions were found unchanged. A run that passed has power as its last event, and power is only ever told what was asked for, else off after an update and reset after a rehearsal. With nothing failing, a right job on the expected builds passes on a faithful device, and on any other exactly if each phase reads back what it wrote and the protected regions read as before |
| UpdateTheorems.UpdateFrame | tools/RomUpdateEngineV1.py:131-135 | for every mode, flag and stopping point no byte outside boot, dtbo, vendor, system (plus exactly the two zeroed heads when wiping) changes, and backup-only changes none |
| UpdateTheorems.ZeroOnlyAfterImages | tools/RomUpdateEngineV1.py:228-244 | on any device, if a zeroed head's program is in the log the run was a wiping update and every image to be written was programmed and read back with its digest before it |
| UpdateTheorems.PowerIsEarned | tools/RomUpdateEngineV1.py:245-255 | a power event of an update is its last event, comes after a program and matching readback of everything planned, and only when the protected regions read as before |
| UpdateTheorems.RehearsalIsHonest | tools/RomUpdateEngineV1.py:204-215 | on any device a rehearsal changes nothing and claims no readback; passed, or with power touched, it had found the job and the phone right and the regions unchanged |
| UpdateTheorems.FinishedHead | tools/RomUpdateEngineV1.py:216-235 | after a finished update the head of each of the four partitions is its new image, also where it was skipped |
| UpdateTheorems.SkippingIsSound | tools/RomUpdateEngineV1.py:216-235 | the finished disk equals the one that writing all four images (and zeroed heads) onto the old disk gives |
| UpdateTheorems.SkippedHoldsImage | tools/RomUpdateEngineV1.py:217-220 | a partition identified as the previous build with an identical new image already holds that image |
| UpdateTheorems.SkippedPartitionUnwatched | tools/RomUpdateEngineV1.py:217-252 | any change inside a skipped partition leaves all readbacks and protected-region comparisons passing |
| UpdateTheorems.VerifiedIsRead | tools/RomUpdateEngineV1.py:233-252 | a report, in memory or saved, that claims readback and unchanged regions has, on any device, matching last reads of everything that is read back on the final disk, and protected regions as before |
| UpdateTheorems.PassedHead | tools/RomUpdateEngineV1.py:233-255 | on any device with truthful reads a passed update without a wipe has the new image at the head of every partition it did not skip, unless digests collide |
| UpdateTheorems.ImageUnwatched | tools/RomUpdateEngineV1.py:233-252 | with a wipe, or for a skipped partition, any change inside the partition leaves every last read of the run as it was |
| UpdateTheorems.DamageUnseen | tools/RomUpdateEngineV1.py:233-252 | in those two cases there is always a disk without the new image that all last reads agree with, so PassedHead needs both its hypotheses |
| Damage.SpoiledUpdate | tools/RomUpdateEngineV1.py:217-255 | runs a right update on a device that spoils one byte of an image at its last program, with a wipe or in a skipped partition: the run passes, claims readback and unchanged regions, and the image is not there |
| Damage.UnexposedHead | tools/RomUpdateEngineV1.py:217-255 | in every other case a passed run has the image there on any device with truthful reads, unless digests collide |
| Damage.SparedPrograms | tools/RomUpdateEngineV1.py:228-244 | on a device that also disturbs other ranges, everything programmed stays in place and only those ranges change besides |
| UpdateTheorems.FinishedKeepsProtected | tools/RomUpdateEngineV1.py:245-252 | a device that writes anything anywhere but answers reads truthfully can only finish with every protected region as it was |
| UpdateTheorems.IdentifyBothWays | tools/RomUpdateEngineV1.py:159-174 | identifying from saved copies and by hashing on the device, one after the other on one session, gives the same map of builds; with valid lengths and a working device both pass |
| UpdateTheorems.UpdateLeavesRollback | tools/RomUpdateEngineV1.py:200-255 | a stopped or finished snapshot update leaves a capture from which rollback will be accepted, and the pre-checks still pass |
| UpdateTheorems.FaithfulUpdate | tools/RomUpdateEngineV1.py:98-255 | a run on a faithful device that may fail at any operation: without a manifest the disk is unchanged, with one it is ready for rollback; with nothing failing it passes exactly for a right job on a phone whose heads are as expected |
| UpdateTheorems.FaithfulRun | tools/RomUpdateEngineV1.py:98-255 | with nothing failing, an update or rehearsal on a faithful device passes if and only if flags, payloads, compatibility and plan are right, the pre-checks hold and every head has the digest of the previous kit's image, or with reflash of one of the two kits'; a head that has neither is refused with no manifest and the disk as it was; a passed update leaves each image's bytes from the first byte of its partition on, with a wipe the zeroes, and every other byte of the disk as it was, unless digests collide |
| UpdateTheorems.WelcomePlainly | tools/RomUpdateEngineV1.py:60-72 | once the job and the pre-checks are right, the phone is as expected exactly if each of the four heads has the digest of the previous kit's image or, with reflash, of the new one's; stated on digests of bytes, without the build names |
| UpdateTheorems.ForeignRefused | tools/RomUpdateEngineV1.py:172-185 | on any device a phone with another head is refused without a manifest, having only been read |
| UpdateTheorems.FinishedInBytes | tools/RomUpdateEngineV1.py:216-244 | a finished update, byte by byte: every image lies at the start of its partition, with a wipe the two heads are zero, and every other byte of the disk is as before |
| UpdateTheorems.FinishedKeepsBytes | tools/RomUpdateEngineV1.py:245-255 | on any device with truthful reads that was told to power down, every byte of the tables and every hashed byte of a partition the update must not write is as before, unless digests collide |
| UpdateTheorems.UnfailingRollback | tools/RomUpdateEngineV1.py:258-325 | from such a capture, with a working device, rollback passes and restores |
| WayBack.WhichCapturesServe | tools/RomUpdateEngineV1.py:263-274 | a capture passes a rollback's structural checks only if a snapshot update without a wipe left it, and on a faithful device every such one does |
| WayBack.NeverRolledBack | tools/RomUpdateEngineV1.py:263-272 | from the capture of a rehearsal, a hash-only or a wiping update a rollback on any device stops having only read |
| WayBack.ExchangedPermitted | tools/RomUpdateLayoutV1.py:150-204 | an allowed update can be taken back by its kits exactly if no SDK or patch level rose and, wiping, the previous build is one a wipe can boot |
| WayBack.ExchangedExpected | tools/RomUpdateEngineV1.py:177-185 | with the kits exchanged and reflash the decision goes on exactly if every head is the image of one of the two kits |
| WayBack.FinishedIsOne | tools/RomUpdateEngineV1.py:216-235 | a finished update leaves, without any assumption on collisions, a head with the new image's digest in every partition |
| UpdateRun.Execute | tools/RomUpdateEngineV1.py:216-255 | images written and read back, then heads zeroed and read back, then protected regions compared, then power; on a faithful device a passed run leaves exactly the planned patches, on any device the disk its disturbances make of them; it passes exactly if they stay unnoticed |
| UpdateRun.Rehearse | tools/RomUpdateEngineV1.py:204-215 | backup-only changes no byte, programs nothing, never claims a readback, touches power only after unchanged regions were claimed, and passed has power as its last event |
| UpdateRun.WritePhases | tools/RomUpdateEngineV1.py:216-244 | both phases: wherever they stop the run ends as an update may, and passed, the disk and both readbacks are those of the programs in order with the device's disturbances between |
| UpdateRun.Proceed | tools/RomUpdateEngineV1.py:204-255 | rehearses or writes the changed partitions only; either way the run ends as every run may, and with nothing failing passes on a faithful device |
| UpdateEngine.ImageWorkOk | tools/RomUpdateEngineV1.py:216-232 | what is left of the plan after dropping unchanged partitions is allowed without the wipe flag, fits, is disjoint, and carries the kit's digests |
| UpdateEngine.WorkApart | tools/RomUpdateEngineV1.py:216-244 | image ranges and zeroed heads never share a sector |
| UpdateEngine.OrderedEnd | tools/RomUpdateEngineV1.py:228-255 | the log of a finished run keeps the order of events, power last |
| UpdateSurvey.LoadPayloads | tools/RomUpdateEngineV1.py:51-57 | passes exactly for the four images with the length and digest their kit states |
| UpdateSurvey.Offline | tools/RomUpdateEngineV1.py:102-135 | passing means flags, payloads, compatibility and plan are all right, with the plan reported; when they are right and nothing fails it passes |
| UpdateSurvey.Recheck | tools/RomUpdateEngineV1.py:42-48 | neither guard refuses a plan the builders accepted |
| UpdateSurvey.BackupPartitions | tools/RomUpdateEngineV1.py:149-153 | every saved partition is the partition's bytes with its digest; boot and dtbo were read twice alike |
| UpdateSurvey.DecideIff | tools/RomUpdateEngineV1.py:177-185 | the decision goes on if and only if every partition is the previous build, or the new one with reflash (which build a head is: `Survey.Identify`) |
| UpdateSurvey.Inspect | tools/RomUpdateEngineV1.py:136-203 | everything up to the manifest only reads; a written manifest describes the disk as it is, in all that `UpdateSurvey.Record` says |
| UpdateSurvey.Record | tools/RomUpdateEngineV1.py:190-203 | the manifest records the kind, the layout, the wipe flag, the digests of the protected regions, before a wipe those of the two heads it will zero, and, if asked for, the copy of userdata with its digest and range; a snapshot's copies are true |
| Survey.CheckDiskIdentity | tools/RomFlashEngineV1.py:151-160 | passes only if both GPT regions equal the kit's and the parsed table matches the layout; on a working device exactly then |
| Survey.PreChecks | tools/RomUpdateEngineV1.py:75-88 | GPT, vbmeta, devinfo and the boot message are as required; no file is left behind |
| Survey.PreCheckUntouched | tools/RomUpdateEngineV1.py:75-88 | the pre-checks give the same answer on any disk changed only inside the four image partitions |
| Survey.HashInvariants | tools/RomUpdateEngineV1.py:91-95 | returns the digests of all protected regions of the disk, changing nothing |
| Survey.InvariantsUnchanged | tools/RomUpdateEngineV1.py:91-95 | programs of accepted ranges never change what is compared, so the check is not spurious |
| Survey.Identify | tools/RomUpdateEngineV1.py:60-72 | names for each saved partition the build whose image its head is: the previous one exactly if the digest of the first bytes, as many as that image has, is that image's, else the new one exactly if so for its image |
| Survey.IdentifyOnDevice | tools/RomUpdateEngineV1.py:160-174 | the hash-only path gives the same map, by the same digests, as identifying saved copies of the whole partitions, and passes exactly for valid image lengths on a working device |
| Survey.HeadOnDevice | tools/RomUpdateEngineV1.py:165-171 | for a valid image length the range hashed on the device is the head of the saved copy |
| Rollbacks.RunRollback | tools/RomUpdateEngineV1.py:258-325 | every way run_rollback can end; it begins writing only from an acceptable capture on a disk that passes the pre-checks, with a working device exactly then passes, and power comes last, after verified readback and unchanged protected regions, and is reset unless asked otherwise; the claims of the report in memory and as last saved are true. Acceptable means, for each partition, the saved digest, or an attempted write that is not verified or whose expected digest the head has |
| Rollbacks.ForeignNotOverwritten | tools/RomUpdateEngineV1.py:301-308 | if some partition has not its saved digest, and its journal entry is missing, not attempted, or verified with another digest than its head's, the rollback on any device stops having only read, with the disk as it was |
| Rollbacks.AccountedNeverOther | tools/RomUpdateEngineV1.py:294-304 | a partition the update's journal accounts for is never classified as foreign |
| Rollbacks.ReadyIsAcceptable | tools/RomUpdateEngineV1.py:264-308 | whatever an update left when it stopped, its capture passes every check of a rollback |
| Rollbacks.CheckFiles | tools/RomUpdateEngineV1.py:275-278 | passes exactly if every saved partition has the partition's length and the manifest's digest |
| Rollbacks.ClassifyAll | tools/RomUpdateEngineV1.py:291-308 | reads and classifies the four partitions, changing nothing: saved exactly by the saved digest, and foreign exactly if neither that nor anything the journal says the update can have left |
| Rollbacks.LivedStillReady | tools/RomUpdateEngineV1.py:285-308 | readiness survives anything that leaves the four partitions and the pre-checks alone |
| Rollbacks.RollbackRestores | tools/RomUpdateEngineV1.py:309-325 | a passed rollback has put the four partitions of the saved disk back and kept everything else |
| Orders.ProgramOne | tools/RomUpdateEngineV1.py:229-231 | one guarded program: nothing is sent that the guard refuses, a sent one is first on record, and only its range changes |
| Orders.ProgramAll | tools/RomUpdateEngineV1.py:228-232 | the write loop: programs reach the device in plan order and, all done, the disk is the old one with every patch; on a faulty device it is what the programs and the disturbances in between make of it |
| Orders.VerifyAll | tools/RomUpdateEngineV1.py:233-235 | the readback loop: passing means every range hashes to its expected digest; a mismatch is reported only when there is one |
| Orders.ProgramKeepsUndoable | tools/RomFlashEngineV1.py:99-105 | programming a head whose attempt is on record keeps all four partitions accounted for, wherever the transfer stops |
| Orders.VerifyKeepsUndoable | tools/RomFlashEngineV1.py:120-127 | recording a readback keeps the account, since the record follows the bytes just read |
| Phases.WriteAndReadBack | tools/RomUpdateEngineV1.py:228-244 | write everything, then read everything back; what holds wherever it stops |
| Phases.CheckProtected | tools/RomUpdateEngineV1.py:245-252 | claims unchanged regions only if they are, stops exactly when they are not |
| Phases.Close | tools/RomUpdateEngineV1.py:245-255 | power is touched only after unchanged regions were claimed, last, and with the state asked for |
| Phases.End | tools/RomFlashEngineV1.py:232-236 | the end of install and restore: the readback claim, then power |
| UpdateLayout.CheckUpdatePlan | tools/RomUpdateLayoutV1.py:101-142 | accepts exactly the plans whose writes are heads of the four partitions under their own name, or exact zeroed heads when wiping, each label once |
| UpdateLayout.CheckUpdateWrite | tools/RomUpdateLayoutV1.py:111-141 | the same for one write |
| UpdateLayout.PartitionAtInside | tools/RomUpdateLayoutV1.py:95-98 | a non-empty range inside one partition overlaps that partition and no other |
| UpdateLayout.UpdateWrites | tools/RomUpdateLayoutV1.py:66-77 | builds a plan exactly for sizes that fit, boot, dtbo, vendor and system in that order, each from the first byte of its partition on and as long as its image, and its own guard accepts it |
| UpdateLayout.WipeWrites | tools/RomUpdateLayoutV1.py:80-85 | the same with the two zeroed heads behind the images |
| UpdateLayout.RollbackWrites | tools/RomUpdateLayoutV1.py:88-92 | the rollback plan is the four whole partitions in that order and always accepted |
| UpdateLayout.AllowedPlanDisjoint | tools/RomUpdateLayoutV1.py:101-142 | accepted plans write pairwise disjoint ranges, all on the disk |
| UpdateLayout.AllowedPlanAnyOrder | tools/RomUpdateLayoutV1.py:101-142 | any permutation of an accepted plan's programs yields the same disk |
| UpdateLayout.UpdatePlanIsPlan | tools/RomUpdateEngineV1.py:42-48 | everything the update guard accepts the weaker plan guard accepts |
| UpdateLayout.AllowedAvoidsProtected | tools/RomUpdateLayoutV1.py:30-49 | no accepted range meets a protected region |
| UpdateLayout.ProtectedCoverage | tools/RomUpdateLayoutV1.py:30-49 | every byte of every partition the update must not write lies in a protected region, except, in byte bounds, the zeroed heads of a wipe and the middle of userdata between its hashed ends |
| UpdateLayout.ProtectedListed | tools/RomUpdateLayoutV1.py:36-46 | every protected region is in the list that is hashed |
| Disk.WriteAllHolds | tools/RomFlashEngineV1.py:218-227 | writing disjoint patches in order leaves each in place and nothing else changed |
| Disk.HoldsUnique | tools/RomFlashEngineV1.py:218-227 | holding a set of patches over a base determines the disk |
| Disk.WriteOrderIrrelevant | tools/RomFlashEngineV1.py:218-227 | disjoint patches written in any order give the same disk |
| Layout.A6lIsValid | tools/RomFlashLayoutV1.py:12-29 | the phone's table satisfies everything the theorems ask of a table |
| Layout.BuildImageWrites | tools/RomFlashLayoutV1.py:64-73 | a plan exactly for non-empty payloads of whole sectors no longer than their partitions; it writes boot, dtbo, vendor and system in that order, each from the first byte of its partition on and as long as its payload |
| Layout.InstallWrites | tools/RomFlashLayoutV1.py:64-76 | the same with the two zeroed heads behind |
| Layout.CheckPlan | tools/RomFlashLayoutV1.py:94-103 | accepts exactly the plans whose non-empty ranges each lie inside a programmable partition |
| Layout.InsideOneIsProgrammable | tools/RomFlashLayoutV1.py:100-102 | counting enclosing partitions decides that |
| Gpt.CheckLayoutAgainstGpt | tools/RomFlashLayoutV1.py:106-133 | accepts exactly the tables with both checksums right in which every layout partition is listed with its geometry, the last entry of a name counting |
| Gpt.WrittenAccepted | tools/RomFlashLayoutV1.py:106-133 | a table laid out as the UEFI Specification says (little-endian fields at their offsets, both checksums right, 128-byte entries) is accepted exactly if every used name decodes and each partition of the layout has its first and last sector in the last entry of its name |
| Gpt.TableReads | tools/RomFlashLayoutV1.py:110-127 | such a table is read back entry by entry: unused for a zero type, otherwise the name without its NULs and the range with both ends included |
| Gpt.NumberReads | tools/RomFlashLayoutV1.py:113-118 | a number written in little-endian bytes reads back |
| Gpt.A6lByName | tools/RomFlashLayoutV1.py:14-22 | the phone's table by the names in its GPT, in bytes |
| Gpt.ScanEntries | tools/RomFlashLayoutV1.py:122-129 | the dictionary built from the entries maps each name to its last entry |
| Gpt.AllowedWriteInOneEntry | tools/RomFlashLayoutV1.py:106-133 | in an accepted table with disjoint entries every allowed write lies in the entry it names and touches no other entry, known to the layout or not |
| Compat.KeepDataIff | tools/RomUpdateLayoutV1.py:150-173 | no problems if and only if no field of either build is missing, the SDK level and both patch levels do not go down, and certificate and data format are the same |
| Compat.WipeIff | tools/RomUpdateLayoutV1.py:184-204 | no refusal if and only if no level goes down and the new build is one a wipe can boot |
| Compat.LessIs | tools/RomUpdateLayoutV1.py:169-172 | a level is earlier than another exactly if it is a proper prefix of it or has the smaller character where they first differ |
| Compat.WipeSplits | tools/RomUpdateLayoutV1.py:190-192 | every problem is either refused or waived, and only a certificate or data-format change is waived |
| Compat.BackIff | tools/RomUpdateLayoutV1.py:150-173 | a step in which nothing goes down can be reversed exactly if no level rose |
| Compat.HistoryMonotone | tools/RomUpdateLayoutV1.py:150-204 | over any history of accepted steps SDK and patch levels never go down, and certificate and data format change only across a wipe |
| Compat.KeepDataTransitive | tools/RomUpdateLayoutV1.py:150-173 | several keep-data steps are one |
| InstallTheorems.InstallThenRestore | tools/RomFlashEngineV1.py:163-293 | for every disk, stopping point and any content a failed transfer leaves: no manifest means nothing was written; otherwise, whatever the ROM did to userdata and the partitions it owns, restore passes, everything outside userdata is as before, and userdata is zeroed or original as asked; undisturbed, restoring the original gives back the whole disk; a right job with nothing failing does pass and leaves a manifest |
| InstallTheorems.PartitionRestored | tools/RomFlashEngineV1.py:258-288 | each partition but userdata has its old bytes, whether written back or found intact |
| InstallTheorems.RestoreUndoes | tools/RomFlashEngineV1.py:239-293 | a passed restore over any such disk undoes the install |
| InstallTheorems.UndisturbedUndone | tools/RomFlashLayoutV1.py:79-87 | with nothing in between, 'zero' leaves every byte as before the install but for userdata's first zeroed sectors and its last footer sectors, which are zero; 'original' leaves nothing different |
| InstallTheorems.FaithfulInstall | tools/RomFlashEngineV1.py:163-236 | an install that may fail anywhere touches nothing of userdata but its zeroed head, and nothing outside the touchable partitions; with nothing failing it passes exactly for a right job on a phone that passes the pre-checks and, unless waived, whose whole system, vendor and dtbo have the stock digests; passed, each image's bytes are at the start of its partition, both heads are zero and every other byte is as before |
| InstallTheorems.ForeignNotInstalledOver | tools/RomFlashEngineV1.py:174-213 | on any device a phone that fails a pre-check, or whose system, vendor or dtbo has not its stock digest where that is asked for, is refused without a manifest, having only been read |
| InstallTheorems.FaithfulRestore | tools/RomFlashEngineV1.py:239-293 | a restore that may fail anywhere changes only touchable partitions and leaves all of userdata as it was between its first and its last sectors, in byte bounds; with nothing failing it passes, and passed it has undone the install: in 'zero' the first and the last of userdata's bytes are zero, in 'original' they are as before the install |
| InstallTheorems.RestoreUntilDone | tools/RomFlashEngineV1.py:239-293 | after any number of restores that stopped anywhere, one from the same capture in which nothing fails passes and leaves what a single one would have |
| Installs.RunInstall | tools/RomFlashEngineV1.py:163-236 | every way run_install can end: without a manifest the disk is untouched; with one the disk passed every pre-check, its system, vendor and dtbo had the stock digests unless that was waived, and the capture holds the old bytes of every backed-up region; claims are true and power, always off, comes last; a right job on such a disk with a working device passes |
| Installs.CheckPayloads | tools/RomFlashEngineV1.py:167-169 | passes exactly if every payload's head has its digest |
| Installs.BackupAll | tools/RomFlashEngineV1.py:183-190 | every region is in the capture with the digest of its bytes |
| Installs.BackedUpPlainly | tools/RomFlashEngineV1.py:182-190 | in byte bounds: every partition but userdata is kept whole, and of userdata its first and its last sectors, each under its name and with its digest |
| Installs.LayoutForIs | tools/RomFlashEngineV1.py:214 | the recorded layout names every partition but userdata with its range, and the two ends of userdata |
| Installs.InstallSurvey | tools/RomFlashEngineV1.py:174-217 | nothing is written; a manifest means the pre-checks passed, the stock digests matched or were waived, all backups are true copies and each small region, and none else, was read twice alike |
| Installs.InstallWorkOk | tools/RomFlashEngineV1.py:218-228 | the install's programs fit, are disjoint, allowed even by the update guard with wipe, and carry their digests |
| Restores.RunRestore | tools/RomFlashEngineV1.py:239-293 | every way run_restore can end; it writes only after files, layout and disk identity were checked, and stopped before that it has only read and claims nothing; its readback claim, in memory and as last saved, is true and power, always reset, comes last; from a whole capture with a working device it passes |
| Restores.CheckBackupFiles | tools/RomFlashEngineV1.py:244-248 | passes exactly if every file but the exempt two has its manifest digest |
| Restores.BackupIsWhole | tools/RomFlashEngineV1.py:244-274 | a capture an install wrote satisfies every check a restore makes of it |
| Restores.CompareRom | tools/RomFlashEngineV1.py:258-262 | finds exactly the ROM-writable partitions whose digest is no longer the saved one |
| Restores.RestorePlanOk | tools/RomFlashEngineV1.py:264-269 | every restore plan has distinct labels and disjoint ranges the plan guard accepts, in both userdata modes |
| Restores.RestoreOrdersOk | tools/RomFlashEngineV1.py:270-285 | with every source of the right length the programs fit and carry the manifest's digests |
| Devices.Device.Read | tools/RomFlashEngineV1.py:32-42 | answers with the bytes of the range and changes nothing |
| Devices.Device.Transfer | tools/RomFlashEngineV1.py:48-57 | leaves a prefix of the payload in the range; passes exactly for an unbroken payload of the range's length on a device that does not fail |
| Devices.Device.Program | tools/RomFlashEngineV1.py:44-57 | the whole new disk after a finished program, or after a failed one, which may leave anything in its range |
| Sessions.Session.ReadRegion | tools/RomFlashEngineV1.py:87-97 | refuses to overwrite a capture file; otherwise keeps the bytes and returns their digest |
| Sessions.Session.HashRegion | tools/RomFlashEngineV1.py:107-118 | both ways of hashing a range give the digest of its bytes and keep no file |
| Sessions.Session.Program | tools/RomFlashEngineV1.py:99-105 | the saved report knows of the attempt before the device sees a byte |
| Sessions.Session.VerifyWritten | tools/RomFlashEngineV1.py:120-127 | notes a verified readback exactly when the digest of the bytes is the expected one |
| Streams.FileStream | tools/RomFlashEngineV1.py:63-71 | yields the first bytes of the file in full chunks, broken exactly when the file is shorter |
| Streams.ZeroStream | tools/RomFlashEngineV1.py:74-80 | yields exactly that many zeroes |
| Streams.HashStream | tools/RomFlashEngineV1.py:130-141 | hashing block by block hashes the concatenation |
| Streams.Sha256File | tools/RomFlashLayoutV1.py:141-155 | a bounded file hash is the hash of the head, or of the whole of a shorter file |
| Adb.ProgramBoth | tools/RomUpdateAdbV1.py:194-231 | the chunked program refines the simple device: same payload cut into any blocks, both finishing, same disk; where nothing fails both finish |
| Adb.AdbDevice.Program | tools/RomUpdateAdbV1.py:194-231 | a range outside the allowlist changes nothing, nor does a zeroed head of a mounted partition or one shorter than a chunk whose payload is not all zeroes; any other is sent as far as `Sent` says; on a reliable link exactly the deliverable payloads finish |
| Adb.AdbDevice.PushAll | tools/RomUpdateAdbV1.py:204-230 | the pieces are a prefix of the payload cut at whole chunks, each verified before the next, offsets MiB-aligned and inside the range; the trailing loop has nothing left |
| Adb.AdbDevice.Fill | tools/RomUpdateAdbV1.py:211-219 | sent plus buffered bytes are always the bytes consumed, and a too long payload is refused before it is buffered |
| Adb.AdbDevice.WriteChunk | tools/RomUpdateAdbV1.py:258-278 | only the chunk's own range can change, nothing does unless the chunk arrived whole, and success means that what is there hashes as wanted and every remote command succeeded |
| Adb.AdbDevice.CheckProgram | tools/RomUpdateAdbV1.py:176-192 | accepts exactly the ranges of writes the engine's guard accepts with the same wipe flag |
| Adb.SentFrame | tools/RomUpdateAdbV1.py:194-231 | no byte outside the range changes however a program ends |
| Adb.SentFills | tools/RomUpdateAdbV1.py:194-231 | finished or stopped, a program over adb is one of the simple device's: the range filled with something, with the payload if it finished, and nothing else changed |
| Adb.SentIsProgrammed | tools/RomUpdateAdbV1.py:204-231 | a finished program has written the payload, unless a chunk collides with what landed |
| Adb.SentPrefix | tools/RomUpdateAdbV1.py:204-231 | a stopped program leaves whole verified chunks and, beyond them, at most one chunk disturbed |
| Adb.NonZeroWritesNothing | tools/RomUpdateAdbV1.py:196-223 | a zeroed head shorter than a chunk with a non-zero byte anywhere in its payload leaves the disk wholly unchanged |
| Adb.A6lHeadsAreShort | tools/RomUpdateAdbV1.py:39-40 | both zeroed heads of the phone are shorter than the 256 MiB chunk, as is every range the transport takes for zeroes only |
| Adb.OnlyZeroesAreSent | tools/RomUpdateAdbV1.py:196-223 | whatever its length, a zeroed head is only ever sent zeroes |
| Adb.ZerosOnlyWhole | tools/RomUpdateAdbV1.py:244-249 | the filter passes a stream whole exactly if it is all zeroes, and never passes a non-zero byte |
| AdbReads.MapRead | tools/RomUpdateAdbV1.py:119-126 | finds a node exactly for ranges inside one partition or one GPT region, at the right offset |
| AdbReads.ProtectedReadable | tools/RomUpdateAdbV1.py:129-137 | every protected region can be hashed over adb |
| AdbReads.ReadBehindMark | tools/RomUpdateAdbV1.py:152-174 | returns exactly the bytes behind the first marker, however the pipe is cut, and passes whenever the marker comes in time and the length is right |
| Firehose.Link.ProgramRecovery | tools/DiagnosticRecoveryProtocolV75U.py:53-105 | any payload but the mode's 64 MiB image, or another geometry, touches nothing; otherwise nothing is offered twice, the accepted bytes are those counted plus a short tail, raw mode is pending until the final ACK in every saved report and on record before the first transfer, and the writer is restored on every exit. It passes exactly if payload and geometry are right, every transfer of the request and of the payload's packets is taken exactly, both answers are the right ones and every save works |
| Firehose.Link.Attempt | tools/DiagnosticRecoveryProtocolV75U.py:76-99 | payload is sent only after an explicit raw-mode ACK; acknowledged only after everything was sent and the final ACK came; passes exactly if all transfers are exact, both answers right and all saves work |
| Firehose.Link.Request | tools/DiagnosticRecoveryProtocolV75U.py:76-85 | the open outcome is on record before the request goes out; passes exactly if that is saved, the request taken, the raw-mode ACK there and saved |
| Firehose.Link.Conclude | tools/DiagnosticRecoveryProtocolV75U.py:92-99 | only an explicit final ACK that could be saved closes the pending raw mode |
| Firehose.Link.SendPayload | tools/DiagnosticRecoveryProtocolV75U.py:86-91 | packets go out in order, each counted only once it was taken exactly; passes exactly if every transfer is exact and every save works |
| Firehose.Link.Write | tools/DiagnosticRecoveryProtocolV75U.py:34-39 | the strict writer makes one transfer and passes exactly if all of it was taken |
| Firehose.AcknowledgedIsWhole | tools/DiagnosticRecoveryProtocolV75U.py:86-98 | an acknowledged write means the phone took the whole payload in order, an empty packet after each packet, and nothing else |
| Firehose.PacketsJoin | tools/DiagnosticRecoveryProtocolV75U.py:86-90 | the packets concatenate to the payload, every second one is empty, and of the others each but the last has the full chunk size |
| Newc.EditReads | tools/Prepare-RecoveryV75Usb.py:66-75 | for every archive that parses, the edited archive parses to the edited entries with the old tail |
| Newc.EditReadsIff | tools/Prepare-RecoveryV75Usb.py:37-40 | it does so if and only if every printed number is below 2^32 |
| Newc.EditedExactly | tools/Prepare-RecoveryV75Usb.py:66-72 | with unique names: init.rc replaced, the new entry directly before the trailer, all other entries byte-identical |
| Newc.EditRamdisk | tools/Prepare-RecoveryV75Usb.py:49-81 | the edit with its checks is refused for an archive that cannot be edited; the new entry's fields are the first shell entry's with an inode one above the highest, mode 0100755, owner and group 0 and one link; when the printed numbers fit it succeeds exactly for editable archives with a trailer and its result parses as edited; when one does not, it succeeds only for an archive with an entry the misreading could be mistaken for |
| Newc.MisfitRefused | tools/Prepare-RecoveryV75Usb.py:74-80 | whatever number does not fit, the self-check refuses the result unless the archive has an entry with an empty name or one starting with an upper-case hexadecimal digit |
| Newc.OverlongMisread | tools/Prepare-RecoveryV75Usb.py:25-40 | an entry printed with a nine-digit number parses, if at all, to a name that is empty or starts with an upper-case hexadecimal digit |
| NewcLimits.LastInodeFails | tools/Prepare-RecoveryV75Usb.py:65-80 | an editable archive with inode 0xFFFFFFFF: the new inode needs nine digits, the result does not read back whatever is put in, and the self-check refuses it |
| NewcLimits.SelfCheckMisled | tools/Prepare-RecoveryV75Usb.py:65-80 | an editable archive with a nameless entry and a script that opens as the watchdog does: the result does not read back and yet passes the self-check |
| NewcLimits.NamelessOnly | tools/Prepare-RecoveryV75Usb.py:65-80 | with files below 4 GiB and an edited archive below 256 MiB, a number that does not fit is refused unless the archive has a nameless entry |
| Newc.EditChecks | tools/Prepare-RecoveryV75Usb.py:74-80 | the self-check accepts the edited entries exactly if there was a trailer |
| Newc.SelfCheck | tools/Prepare-RecoveryV75Usb.py:74-80 | accepts exactly if, by the last entry of each name, no name went and only the new one came, all but init.rc are the same bytes, the new entry has its data and mode and init.rc its data |
| Newc.ParseNewc | tools/Prepare-RecoveryV75Usb.py:25-36 | parsing at absolute positions, kept multiples of four, equals parsing entry by entry |
| Newc.EntryLaidOut | tools/Prepare-RecoveryV75Usb.py:28-34 | where an entry's parts are: thirteen hexadecimal numbers of eight digits behind the mark, sizes at bytes 54 and 94, the name from byte 110 to its NUL, data and next entry from multiples of four on |
| Newc.HexDigitAt | tools/Prepare-RecoveryV75Usb.py:39 | a printed number is its upper-case digits, the most significant first |
| Newc.PrintedIsSolid | tools/Prepare-RecoveryV75Usb.py:37-40 | a printed entry parses back to itself wherever it stands |
| Newc.WholeIsSolid | tools/Prepare-RecoveryV75Usb.py:29-34 | an entry not cut off by the end of the archive parses alike at any aligned position |
| Newc.HexRoundTrip | tools/Prepare-RecoveryV75Usb.py:39 | printed numbers read back, in w digits exactly when below 16^w |
| Newc.EditEntries | tools/Prepare-RecoveryV75Usb.py:66-72 | the loop's output is the concatenation of the edited entries |
| Linker.SearchIsExact | tools/Audit-StockDependencies.py:86-105 | sound and complete: a hit is a file a chain of permitting links reaches; no hit means no chain reaches a holder |
| Linker.SearchIff | tools/Audit-StockDependencies.py:86-105 | with every reachable directory readable, a hit if and only if a chain reaches a holder |
| Linker.SimpleChain | tools/Audit-StockDependencies.py:87-88 | every chain contains a simple one with the same ends, so path-visited pruning loses nothing |
| Linker.SearchExplains | tools/Audit-StockDependencies.py:86-105 | for any set of visited namespaces: the answer is that of the first namespace, in the depth-first order of the links, that a simple way of permitting links reaches and whose directories, in order, are not silent; none if all are silent; and the search ends on cyclic namespaces |
| Linker.ExplainedOnce | tools/Audit-StockDependencies.py:86-105 | that account leaves no choice: it fixes the answer |
| Linker.Audit | tools/Audit-StockDependencies.py:109-127 | the nodes are exactly what the root loads; each needed library of each node has an edge; an edge's target is a node, in a namespace that permitting links reach from the source's and whose directories hold the library at that path in the source's bitness, and is the search's first answer; an edge without one means no such chain reaches a holder; it finishes exactly if no loaded file needs a search or a file that cannot be read |
| Linker.AuditNode | tools/Audit-StockDependencies.py:118-127 | one node's edges, in order, queueing every target; stops exactly if one of its searches raises |
| Linker.MissingMeans | tools/Audit-StockDependencies.py:120-127 | a needed library is reported missing exactly if no chain leads to a holder |
| Symlinks.ResolveFile | tools/Audit-StockDependencies.py:30-48 | gives the first link-free path of the rewriting if it comes within 32 rounds and is a file, nothing if it is none, and raises exactly if no round meets a link-free path |
| Symlinks.Replaced | tools/Audit-StockDependencies.py:33-43 | one round puts the target of the shortest prefix that is a link in its place, behind the root if absolute, else behind the directory the link lies in |
| Symlinks.NormalLaws | tools/Audit-StockDependencies.py:31-43 | normalising drops what names nothing, cancels a way back with what it follows, and stops at the root |
| Symlinks.CircleRaises | tools/Audit-StockDependencies.py:32-48 | links that run in a circle never reach a link-free path, so they are always reported |
| Symlinks.LongChainRaises | tools/Audit-StockDependencies.py:32-48 | 32 links in a row that end at a file are reported too, although there is no cycle |
| Symlinks.LinkFreeStays | tools/Audit-StockDependencies.py:43-47 | a resolved path resolves to itself |
| Touch.Decode | tools/Capture-TouchEvents.py:24-53 | the loop gives the frames, errors and drops of the event-by-event machine; drops are the dropped-event markers, frames the reports that close none, and errors, in order, the events with a slot or, for a selected slot, a coordinate out of range |
| Touch.CountsAndComplaints | tools/Capture-TouchEvents.py:29-53 | the same of the machine, with the positions of the wrong events |
| Touch.DropForgets | tools/Capture-TouchEvents.py:31-38 | after a dropped-event marker and its closing report everything decoded is what the remaining events give from a blank state |
| Touch.DropForgetsHistory | tools/Capture-TouchEvents.py:31-34 | so histories that differ only before the marker decode alike after it |
| Touch.EveryFrameOk | tools/Capture-TouchEvents.py:24-53 | in every frame of every input: strictly increasing slots in range, ids not negative, coordinates in range |
| Touch.MachineKeepsLatest | tools/Capture-TouchEvents.py:39-51 | for each slot the machine holds the latest accepted value of each kind since events were dropped |
| Touch.FrameShows | tools/Capture-TouchEvents.py:35-36 | a contact is in a frame exactly when its slot's latest id, x and y are known and the id is one |

## Left out

- Rerunning a rollback that itself stopped partway: a half-written partition can be classified as foreign and refused, so nothing is claimed about it. (A stopped restore can be rerun: `InstallTheorems.RestoreUntilDone`.)
- Hashing, CRC-32, UTF-16 and UTF-8 decoding, XML parsing: uninterpreted functions or records; inputs Python cannot decode are not modelled except for GPT entries, where the entry counts as broken.
- Python's leniency in `int(text, 16)` (signs, underscores, spaces): a newc header field must be plain hexadecimal digits.
- The refusal of a table too small for the wipe invariants (RomUpdateLayoutV1.py:47-48): a valid table has room for the zeroed heads.
- Type checks on arguments (`isinstance`, `type(x) is not int`) and free-text mode names of the engine: the datatypes rule them out.
- `AdbRecoveryDevice.preflight` (sysfs geometry, node creation) and `assert_unmounted`'s text matching: the mount answer is an input, the nodes are taken to be the verified partitions.
- The report fields no later decision reads (`predecessor`, `recovery_state`, `rom_changed`, timings, printed text) and JSON formatting.
- Earlier content of the capture directory: every run starts in an empty one.
- Concurrent access to the disk, and devices that answer reads falsely.
- Checks of ramdisk line contents (lines 57-63 of Prepare-RecoveryV75Usb.py) and everything after the ramdisk is written: image packaging calls external tools.
- ELF parsing and the text of search paths: in the linker search a lookup is an arbitrary function that may find a file, find none, or raise (one resolution is modelled by itself in `Symlinks`); node keys are pairs instead of joined strings. Paths that start with two slashes are not modelled.
- `front_devices` and the regular expression that splits event lines: decoding starts from matched events.
- Asynchronous exceptions between two statements of `program_recovery`: failures happen in transfers, answers and saves.
- The library's own request sending (`xmlsend`): any sequence of transfers through the installed writer, then any answer or an exception.
- The order in which the audit lists its nodes (breadth first): edges are grouped by node, in the order of each file's needed libraries, but no claim says which node comes when.
- USB, adb and subprocess plumbing, sudo, timeouts and the launch coordinators: no algorithmic claim.
