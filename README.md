# ArStor CSI plugin: catalog, loop devices and request handlers in Dafny

This project models the core of the ArStor CSI plugin, a Container Storage
Interface driver. It keeps Kubernetes volumes and snapshots as files on an
ArStor shared file system and presents them to pods through loop devices.
The model covers these parts:

- **The ArStor client** (`ArStor`) is a class holding the catalog: volumes by id, snapshots by id, and the shard directories known to be full. Its methods change the catalog step by step, as the Go code does:
  - placing a volume or snapshot file in one of 1000 hash-chosen shard directories, probing past full ones;
  - creating, snapshotting, restoring and cloning volumes, with one retry after a "file full" answer;
  - deleting volumes and snapshots;
  - expanding a volume file;
  - rebuilding the catalog from the `<id>_<name>` file names on the mount.
- **The loop-device manager** (`LoopDevice`):
  - parses `losetup`, `fdisk`, `file` and `kpartx` output;
  - sweeps lost loop devices;
  - attaches and detaches loop devices against the kernel's loop table.
- **The file-system probe** (`Resize`): reads `blkid` output and picks the grow command.
- **The controller service** (`ControllerServer`) and **the node service** (`NodeServer`): argument checks, capability gating, catalog reuse, stage/publish/unpublish/unstage, inline ephemeral volumes and node identity.
- **Small pure helpers** (`Utils`, `Crc32`, `GoStrings`): the CRC-32 hash, the "file full" test, ceiling division, lookups, and the parts of Go's `strings` package the code relies on.

The array's command-line tool (`Backend.Tool`) and the node (`Host.Host`) are oracles:

- Every request is appended to a log together with its outcome.
- Each reply is whatever the environment answers.
- The node keeps one piece of real state: the kernel's loop table, a map from device to backing file. Attach and detach change it.

Contracts are stated over the catalog maps, the loop table and those logs. Identifiers, clock values and Go's map iteration order are parameters or ghost outputs.

## Model

| member | source | states |
|---|---|---|
| Utils.SizeConstants | pkg/arstor/utils.go:37-44 | gib is 2^30, tib is 2^40 = 1024·gib; the hundredfold constants are 100 times them |
| Utils.GoIntOfUint32 | pkg/arstor/utils.go:81-91 | converting the uint32 checksum to Go `int` keeps it on 64-bit platforms and wraps values from 2^31 up to negatives on 32-bit ones |
| Utils.NonNegativeHash | pkg/arstor/utils.go:81-91 | the result is in [0, 2^32), equals the checksum on 64-bit platforms and is below 2^31 on 32-bit ones |
| Utils.NonNegativeHash32 | pkg/arstor/utils.go:81-91 | on 32-bit platforms, a checksum with the top bit set becomes its two's-complement magnitude, and 0x80000000 becomes 0 |
| Utils.StringToHash | pkg/arstor/utils.go:81-91 | never negative; on 64-bit platforms it is exactly the IEEE CRC-32 of the string's UTF-8 bytes |
| Utils.ShardInRange | pkg/arstor/arstor.go:724 | the hash reduced modulo 1000 is a shard number in [0, 1000) |
| Crc32.CheckValue | pkg/arstor/utils.go:81-91 | the checksum is the IEEE 802.3 CRC-32: the check string "123456789" hashes to 0xCBF43926 |
| Crc32.AsciiByteLen | pkg/arstor/arstor.go:365-368 | Go's `len` counts UTF-8 bytes, which for ASCII names is the number of characters, so the name-length limit applies to bytes |
| Utils.IsFileFullErrIff | pkg/arstor/utils.go:232-243 | an error text means "directory full" exactly when its first maximal digit run is "7": some '7' has no digit before it and none right after |
| Utils.IsFileFullErrExamples | pkg/arstor/utils.go:232-243 | "e17", "e07", "full" and "e1 7" are not "file full" errors; "e7" is one |
| Utils.RoundUpSizeIsCeiling | pkg/arstor/utils.go:471-482 | for a positive unit, r·unit ≥ size and (r−1)·unit < size, for sizes of either sign, with Go's truncating `/` and `%` |
| Utils.RoundUpSizeExample | pkg/arstor/utils.go:471-482 | 1500 MiB in 1 GiB units rounds up to 2 |
| Utils.Contains | pkg/arstor/utils.go:59-74 | found exactly when obj is an element of the slice or array, or a key of the map; the error is "not in" exactly when not found |
| Utils.GetVolumeById | pkg/arstor/utils.go:366-373 | none exactly when the id is not a key; otherwise the stored entry |
| Utils.GetSnapshotById | pkg/arstor/utils.go:399-406 | none exactly when the id is not a key; otherwise the stored entry |
| Utils.GetVolumeByName | pkg/arstor/utils.go:356-364 | none exactly when no entry carries the name; otherwise some catalogued entry with that name, whichever map order gives |
| Utils.GetSnapshotByName | pkg/arstor/utils.go:389-397 | none exactly when no entry carries the name; otherwise some catalogued entry with that name |
| Utils.GetVolume | pkg/arstor/utils.go:342-354 | an id that is a key gives its entry; otherwise the lookup by name decides |
| Utils.GetSnapshot | pkg/arstor/utils.go:375-387 | an id that is a key gives its entry; otherwise the lookup by name decides |
| Host.ParentDir | pkg/arstor/utils.go:150-158 | `filepath.Dir` of a path with an inner '/': the result, '/', and the last component give back the path |
| Host.Host.GetPathInode | pkg/arstor/utils.go:160-178 | an empty path is refused with "dir is empty" and no system call; otherwise one stat is logged; an inode is never negative |
| Host.Host.PathExists | pkg/arstor/utils.go:93-112 | one logged stat; its outcome is the node's answer |
| Host.Host.EnsureDir | pkg/arstor/utils.go:114-123 | one logged `MkdirAll`; the loop table is unchanged |
| Host.Host.EnsureFile | pkg/arstor/utils.go:125-134 | one logged open with `O_CREATE`; the loop table is unchanged |
| Host.Host.DeleteFile | pkg/arstor/utils.go:143-148 | one logged removal, which succeeds when the file was removed or was already absent |
| Host.Host.GetFileDir | pkg/arstor/utils.go:150-158 | when it succeeds the result is the parent directory; nothing is logged |
| Host.Host.GetFileSize | pkg/arstor/utils.go:180-197 | one logged stat; a size is never negative |
| Host.Host.GetFileCreationTime | pkg/arstor/utils.go:208-230 | one logged stat |
| Host.Host.GetAllFile | pkg/arstor/utils.go:408-429 | one logged directory walk; its result maps file names to paths |
| Host.Host.WaitSnapshotReady | pkg/arstor/arstor.go:513-534 | one logged poll for the snapshot file |
| Host.Host.ProbeMountTarget | pkg/arstor/utils.go:431-449 | one logged probe of the target, recorded as failed exactly when the answer is an error; the loop table is unchanged |
| Host.Host.ProbeMountPoint | pkg/arstor/utils.go:451-463 | one logged probe, recorded as answered when the path is reported mounted or not mounted; the loop table is unchanged |
| Host.Host.Unmount | pkg/arstor/utils.go:466-469 | one logged unmount-and-clean-up of the path |
| ArStor.PrimaryShard | pkg/arstor/arstor.go:724 | the first shard an id hashes to is below 1000 |
| ArStor.FirstFreeSpec | pkg/arstor/arstor.go:727-743 | the probe search finds an unmarked probe with every earlier probe marked full, and finds none exactly when every remaining probe is marked |
| ArStor.ShardChoiceSpec | pkg/arstor/arstor.go:722-752 | the chosen shard is never marked full; an unmarked primary shard is chosen itself; there is no choice exactly when all 1000 probes are marked |
| ArStor.ProbeLeavesRange | pkg/arstor/arstor.go:730 | probes are never reduced modulo 1000: with shard 999 full, an id hashing there is placed in shard 1000 |
| ArStor.CandidatesDistinct | pkg/arstor/arstor.go:811-813 | probes at different distances name different directories, so the second-tier search never revisits one |
| ArStor.TriIncreasing | pkg/arstor/arstor.go:811-813 | the cumulative probe offsets 0, 1, 3, 6, … strictly increase |
| ArStor.ProbeFullDirs | pkg/arstor/arstor.go:727-743 | the probe loop finds a shard exactly when there is a choice, and finds that choice |
| ArStor.FullVerdictIff | pkg/arstor/arstor.go:766-783 | an attribute reads as "no dirList" exactly when it is non-empty and has no "dirList"; one with "dirList" is full exactly when "dEntries" occurs more than 1001 times between the first and the second "dirList", so that the number of pieces minus 2 exceeds 1000 |
| ArStor.ParseFileNameIff | pkg/arstor/arstor.go:187-200 | a file name is accepted exactly when it is `<id>_<name>` with no other "_"; so a name the client creates parses back to its id and name when neither holds "_" |
| ArStor.SnapshotIdsOf | pkg/arstor/arstor.go:662-671 | the snapshot ids of a volume are empty exactly when no snapshot records that volume as its source |
| ArStor.ArStorClient.constructor | pkg/arstor/arstor.go:112-172 | a new client keeps the mount path, word size, tool and node it is given, and starts with empty volume, snapshot and full-directory maps |
| ArStor.ArStorClient.WaitVolumeReady | pkg/arstor/arstor.go:405-437 | succeeds exactly when the volume is catalogued with a non-empty path |
| ArStor.ArStorClient.AddFullDir | pkg/arstor/arstor.go:277-279 | marks the directory full; nothing else changes |
| ArStor.ArStorClient.RemoveFullDir | pkg/arstor/arstor.go:281-286 | the directory is no longer recorded; nothing else changes |
| ArStor.ArStorClient.GenerateArStorDir | pkg/arstor/arstor.go:722-752 | success returns the first probe not marked full, both absolute and relative to the mount, after exactly one successful directory creation of it on the node; whenever a probe is chosen the node's log gains exactly that directory creation, with its outcome; with every probe marked it fails before touching the node |
| ArStor.ArStorClient.ChooseVolumeDir | pkg/arstor/arstor.go:359-368 | the shard directory of a new volume: a file name of 255 bytes or more fails; success is the hash-chosen shard, not marked full, absolute and relative to the mount, after exactly one successful directory creation of it on the node, with the loop table unchanged |
| ArStor.ArStorClient.IsFullArStorDir | pkg/arstor/arstor.go:754-784 | a measurement asks the array once and reports the attribute's verdict; an attribute without "dirList" makes Go panic with "index out of range"; a failed lookup asks nothing more |
| ArStor.ArStorClient.CheckArStorDir | pkg/arstor/arstor.go:786-800 | a directory marked full is refused with no query; it is accepted only when it is not marked and the one live count says not full; the only error is the index-out-of-range panic |
| ArStor.ArStorClient.ReGenerateArStorDir | pkg/arstor/arstor.go:802-833 | success picks probe k, with 1 ≤ k < 1000, at the k-th cumulative offset from the primary shard and so never the primary shard; it is not marked full, and the last answer of the array was its live count saying not full; every probe from 1 to k was marked full or looked up on the node, and no earlier count said not full; "no dir" comes only after all probes up to 999 were visited with no count saying not full; the other failures are the index-out-of-range panic and a failed directory creation of probe k; no file is created |
| ArStor.ArStorClient.FindLiveDir | pkg/arstor/arstor.go:802-820 | probe 1, then the loop over the later probes: a probe found is the first whose live count said not full, with every probe from 1 up to it visited; running out visits every probe up to 999 with no count saying not full; the only error is the index-out-of-range panic |
| ArStor.ArStorClient.ProbeLiveDirs | pkg/arstor/arstor.go:809-820 | the loop over probes 2, 3, …: a usable probe i has 2 ≤ i < 1000, lies at the cumulative offset from the first shard, is not marked full, and the last answer of the array was its count saying not full; every probe from 2 to i was marked or looked up, and no earlier count said not full; running out means i = 1000, every probe visited and none counted not full; a failed check is an index error; no file is created |
| ArStor.ArStorClient.CreateVolumeFile | pkg/arstor/arstor.go:311-343 | the request is returned with only its name changed, to `<id>_<name>`, exactly when that one name was asked of the array; a name left unchanged comes with inode 0; success returns `localDir/<id>_<name>`; a failure is one of the steps of the attempt: an empty directory ("dir is empty"), the directory missing on the node, the array refusing the create (its text), the file missing after the create, or the truncation to the size refused (its text) |
| ArStor.ArStorClient.CreateOrRemove | pkg/arstor/arstor.go:376-377 | one creation attempt; a failure is one of the steps of `CreateVolumeFile`, and the last node request removes `localDir/<id>_<name>` |
| ArStor.ArStorClient.FirstAttempt | pkg/arstor/arstor.go:369-380 | a placeholder entry with an empty path is filed first; success leaves it; failure removes the entry and is one of the steps of `CreateVolumeFile` in the given directory |
| ArStor.ArStorClient.RetryCreateVolume | pkg/arstor/arstor.go:380-391 | the first shard is marked full; a success lands in an unmarked shard; the catalog is unchanged; at most the one doubled name is asked of the array; both logs only grow |
| ArStor.ArStorClient.PlaceVolume | pkg/arstor/arstor.go:369-402 | success files the volume with path `mxDir/<id>_<name>`, in a shard not marked full, and sets the request's path; failure leaves no entry under the id; without a retry the first shard is used, at most one file is asked for, and a failure is not "file full" and is one of the steps of the attempt in the first shard; a retry comes only after the attempt in the first shard failed with "file full" at one of those steps, marks the first shard full, and its second request names `<id>_<id>_<name>` |
| ArStor.ArStorClient.CreateVolume | pkg/arstor/arstor.go:345-403 | a bad access type fails before anything is asked or filed; a file name `<id>_<name>` of 255 bytes or more fails with nothing asked of the array or filed; the node's log only grows; success files exactly this volume, in the hash-chosen shard when there was no retry; failure files nothing; a retry follows only a "file full" failure of the attempt in the hash-chosen shard, whose directory was created first, at one of the steps of that attempt; it marks that shard full, and its request names `<id>_<id>_<name>` |
| ArStor.ArStorClient.Copy | pkg/arstor/arstor.go:459 | one snapshot or clone request to the array |
| ArStor.ArStorClient.RetryCopy | pkg/arstor/arstor.go:463-474 | the first shard is marked full; a success copies into an unmarked shard, after an answered copy request there; the catalog is unchanged; the array log only grows |
| ArStor.ArStorClient.CopyWithRetry | pkg/arstor/arstor.go:459-478 | the first request is the copy into the chosen shard; the retry happens exactly when its answer is a "file full" error, which is the error kept, and marks that shard full; without a retry that one request is all that is asked and its error is the result; success ends with an answered copy, into an unmarked shard after a retry |
| ArStor.ArStorClient.PlaceSnapshot | pkg/arstor/arstor.go:458-493 | the first request is the snapshot into the chosen shard, and the retry happens exactly when it is answered "file full"; success files the snapshot with path `mxDir/<id>_<name>`, ready, with a non-negative size, in an unmarked shard after an answered snapshot request; failure drops the entry or keeps the placeholder |
| ArStor.ArStorClient.FinishSnapshot | pkg/arstor/arstor.go:479-493 | success files the snapshot as ready, with the given path and a non-negative size; failure leaves the snapshots unchanged |
| ArStor.ArStorClient.CreateSnapshot | pkg/arstor/arstor.go:439-494 | an uncatalogued source volume, or a file name `<id>_<name>` of 255 bytes or more, fails with nothing asked of the array or filed; success files a ready snapshot after an answered snapshot request of that volume's file, in the hash-chosen shard when there was no retry; the retry happens exactly when the first request, the snapshot of the source file into the hash-chosen shard, is answered "file full", and it marks that shard full |
| ArStor.ArStorClient.PlaceClone | pkg/arstor/arstor.go:597-624 | the first request is the clone into the chosen shard, and the retry happens exactly when it is answered "file full"; success files the volume at `mxDir/<id>_<name>`, in an unmarked shard, after an answered clone; failure leaves no entry |
| ArStor.ArStorClient.RestoreSnapshot | pkg/arstor/arstor.go:571-625 | an unknown snapshot fails with nothing asked or filed; success files the volume after an answered clone of the snapshot's file, in the hash-chosen shard when there was no retry; the retry happens exactly when the first request, the clone of the snapshot file into the hash-chosen shard, is answered "file full", and it marks that shard full; there is no name-length check |
| ArStor.ArStorClient.CloneVolume | pkg/arstor/arstor.go:627-660 | an unknown source fails with nothing changed; success leaves a ready snapshot of the source under the new volume's id and name, taken at the given time, and files the new volume with the path `mxDir/<id>_<name>` in an unmarked shard |
| ArStor.ArStorClient.ShardToUnmark | pkg/arstor/arstor.go:547-555 | names the file's shard only when the array counted it full just before; the node's log only grows |
| ArStor.ArStorClient.DeleteFromArray | pkg/arstor/arstor.go:557 | one delete request to the array |
| ArStor.ArStorClient.DeleteSnapshot | pkg/arstor/arstor.go:536-569 | a missing or path-less snapshot counts as deleted with nothing asked; the entry goes only after the array deleted the file; the shard is unmarked only when it was counted full before the delete; the node's log only grows |
| ArStor.ArStorClient.DeleteVolumeFile | pkg/arstor/arstor.go:688-708 | the entry goes only after the array deleted the file; the shard is unmarked only when it was counted full before the delete; the node's log only grows |
| ArStor.ArStorClient.DeleteVolume | pkg/arstor/arstor.go:673-720 | a missing or path-less volume counts as deleted with nothing asked; a volume with snapshots is refused with nothing changed; a failure keeps the entry unless a snapshot is filed under the same id, whose failed deletion comes after the entry was removed; success removes it and the snapshot filed under the same id; full marks are only ever removed; the node's log only grows |
| ArStor.ArStorClient.DeleteVolumeTwice | pkg/arstor/arstor.go:673-680 | deleting again after a successful delete succeeds and leaves the volume gone |
| ArStor.ArStorClient.ExpandVolume | pkg/arstor/arstor.go:496-511 | exactly one truncate, of the catalogued path (the empty path for an unknown id); success is the array's; the catalog keeps the old size |
| ArStor.ArStorClient.LoadVolumes | pkg/arstor/arstor.go:181-217 | existing entries are never overwritten; each new entry comes from a file `<id>_<name>` with that path and a positive size; for an empty file a removal of the bare name `<id>_<name>` is asked instead; a full load catalogs every parseable file or asks for that removal; the node's log only grows |
| ArStor.ArStorClient.LoadVolumeEntry | pkg/arstor/arstor.go:187-216 | one file of the volume tree: an entry is added only for a new id parsed from the name `<id>_<name>`, with the file's path and a positive size; otherwise the catalog is unchanged; a parsed name ends catalogued or its file removed unless an error intervenes |
| ArStor.ArStorClient.LoadVolumeFile | pkg/arstor/arstor.go:201-216 | an empty file is not catalogued and a removal of its bare name `<id>_<name>`, not of its path, is asked of the node; a non-empty one becomes the entry with its name, path and positive size; there is no error exactly when one of the two happened |
| ArStor.ArStorClient.LoadSnapshots | pkg/arstor/arstor.go:221-273 | existing entries are never overwritten; each new entry comes from a file `<id>_<name>`, ready, with that path; a full load catalogs every parseable file; the node's log only grows |
| ArStor.ArStorClient.LoadSnapshotFile | pkg/arstor/arstor.go:244-272 | when size, time, inode and source all answer, the snapshot is catalogued with its name and path, ready, with a non-negative size; otherwise the catalog is unchanged |
| ArStor.ArStorClient.LoadArStorData | pkg/arstor/arstor.go:179-275 | entries already catalogued stay as they were; new volumes have positive sizes; full marks are untouched; the node's log only grows |
| LoopDevice.BeforeColon | pkg/arstor/loopdevice.go:282 | the text before the first ':' is a prefix without ':' |
| LoopDevice.ParseLosetupOutputForDevice | pkg/arstor/loopdevice.go:275-287 | empty output and an empty device give "device not found"; a device is non-empty and trimmed |
| LoopDevice.DeviceBeforeColon | pkg/arstor/loopdevice.go:282 | a loop device followed by ':' is read back |
| LoopDevice.ParseListingLine | pkg/arstor/loopdevice.go:275-287 | a `losetup` line for a binding parses back to its device |
| LoopDevice.ParseBlankDevice | pkg/arstor/loopdevice.go:283-285 | output blank before its first ':' names no device |
| LoopDevice.ParseListedNames | pkg/arstor/loopdevice.go:262-269 | the parsing loop computes the names read from the ':'-segments in which "loop" occurs after the first character |
| LoopDevice.ListedNamesCount | pkg/arstor/loopdevice.go:262-269 | for a backing file without ':' and "loop", one name is read per binding, and the first is the first device |
| LoopDevice.LoopInFileDoublesName | pkg/arstor/loopdevice.go:262-269 | for a backing file whose path contains "loop", one binding is read as two names, the device and an inode number |
| LoopDevice.BoundDevicesOfListing | pkg/arstor/loopdevice.go:281 | read line by line, `losetup -j` output names exactly the bound devices, in order |
| LoopDevice.SelectLostDevices | pkg/arstor/loopdevice.go:95-110 | the selection loops compute the lost-device map |
| LoopDevice.SelectLostLines | pkg/arstor/loopdevice.go:97-110 | the loop over the lines computes the lost-device map of all of them |
| LoopDevice.MarkLine | pkg/arstor/loopdevice.go:103-108 | the loop over one line's tokens computes that line's update of the map |
| LoopDevice.LostOfSound | pkg/arstor/loopdevice.go:98-109 | every selected device is the first token of a line that mentions a volume file and carries "/.nfs" after its first character, and its file is a marked token of that line |
| LoopDevice.LostOfComplete | pkg/arstor/loopdevice.go:98-109 | every such line with a marked token has its device selected |
| LoopDevice.MarkTokensEntries | pkg/arstor/loopdevice.go:103-108 | a selected line changes only its own device's entry, and sets it when the line has a marked token |
| LoopDevice.KeptPartition | pkg/arstor/loopdevice.go:119-142 | the success and failed lists together list each lost device exactly once |
| LoopDevice.SweepLogRequests | pkg/arstor/loopdevice.go:122-142 | every lost device is asked to detach, and every file removal is of the backing file of a device the sweep detached |
| LoopDevice.LoopDeviceManager.DetachLostLoopDevice | pkg/arstor/loopdevice.go:80-152 | a failed listing selects nothing and detaches nothing; otherwise the lost devices are those parsed from the listing, each asked to detach once; a file is removed only after a successful detach; the loop table loses exactly the detached devices; each device ends in exactly one of the two lists; the error message is empty exactly when none failed |
| LoopDevice.LoopDeviceManager.SweepLost | pkg/arstor/loopdevice.go:118-142 | the loop over the lost devices: the loop table loses exactly the detached devices, and the two lists are the cleared and uncleared devices in visit order |
| LoopDevice.LoopDeviceManager.DetachOne | pkg/arstor/loopdevice.go:123-141 | one detach, then one removal only when the detach succeeded; the device leaves the loop table exactly when the detach succeeded; the message is empty exactly when both steps succeeded |
| LoopDevice.LoopDeviceManager.GetFreeLoopDevice | pkg/arstor/loopdevice.go:194-207 | one `losetup -f`; the name is its output without surrounding newlines |
| LoopDevice.LoopDeviceManager.AttachLoopDevice | pkg/arstor/loopdevice.go:209-222 | one `losetup <dev> <file>`; on success the device was free and is now bound to the file; on failure the loop table is unchanged |
| LoopDevice.LoopDeviceManager.DetachLoopDevice | pkg/arstor/loopdevice.go:224-237 | one `losetup -d`; on success the device was bound and no longer is; on failure the table is unchanged |
| LoopDevice.LoopDeviceManager.ListLoopDeviceByFile | pkg/arstor/loopdevice.go:239-273 | one `losetup -j`; the names are those parsed from the listing of the devices bound to the file; for a plain path they are as many as the bindings |
| LoopDevice.FirstVolumeLine | pkg/arstor/loopdevice.go:169-179 | the first line that mentions a volume file and the volume id after its first character; no earlier line does |
| LoopDevice.FindVolumeDevice | pkg/arstor/loopdevice.go:168-179 | the scan computes the first token of the first line naming the volume, or "" |
| LoopDevice.FindVolumeLine | pkg/arstor/loopdevice.go:170-178 | the scan stops at the first line naming the volume, or past the end when there is none |
| LoopDevice.LoopDeviceManager.DetachLostLoopDeviceByVolumeId | pkg/arstor/loopdevice.go:154-192 | a failed listing is an error; with no line naming the volume nothing is detached and the call succeeds; otherwise exactly that device is detached |
| LoopDevice.PartitionOf | pkg/arstor/loopdevice.go:289-318 | the partition has no space, and is empty for empty output |
| LoopDevice.PartitionOfOneLine | pkg/arstor/loopdevice.go:289-318 | one partition on its own line is read back |
| LoopDevice.PartitionOfTwoLines | pkg/arstor/loopdevice.go:289-318 | two partitions are read as both names with the newline between them |
| LoopDevice.LoopDeviceManager.GetDevicePartition | pkg/arstor/loopdevice.go:289-318 | one `fdisk` command; on success the partition parsed from its output |
| LoopDevice.FsTypeOf | pkg/arstor/loopdevice.go:496-511 | "ext3" wins, then "ext4", then "XFS" (reported as "xfs"), each only at an index above 0; "" when none |
| LoopDevice.FsTypeOfFirstWins | pkg/arstor/loopdevice.go:498-511 | output naming ext4 then ext3 is ext3 |
| LoopDevice.FsTypeOfExt4 | pkg/arstor/loopdevice.go:498-511 | output naming XFS then ext4 is ext4 |
| LoopDevice.FsTypeOfXfs | pkg/arstor/loopdevice.go:498-511 | output naming XFS alone is xfs |
| LoopDevice.FsTypeOfAtStart | pkg/arstor/loopdevice.go:498-511 | a type name at index 0 is not seen |
| LoopDevice.LoopDeviceManager.GetFsType | pkg/arstor/loopdevice.go:482-512 | one `file -s`; on success the classification of its output |
| LoopDevice.MkfsCommand | pkg/arstor/loopdevice.go:514-547 | a command exists exactly for ext3, ext4 and xfs, and is `mkfs.<type> …` |
| LoopDevice.LoopDeviceManager.SetFsType | pkg/arstor/loopdevice.go:514-547 | any other type is refused with "invalid fstype" and no command; otherwise the mkfs command is run |
| LoopDevice.LoopDeviceManager.EnsureFsType | pkg/arstor/loopdevice.go:454-480 | the detected type is read first; the device is formatted exactly when the detected type differs from the requested one |
| LoopDevice.LoopDeviceManager.CheckPathDeviceType | pkg/arstor/loopdevice.go:398-431 | succeeds exactly when the path is of the expected kind |
| LoopDevice.DeviceKinds | pkg/arstor/loopdevice.go:390-396 | every kernel loop name passes `isLoopDevice`, and no device passes both prefix tests |
| LoopDevice.LoopNameOfMapper | pkg/arstor/loopdevice.go:570-577 | fails exactly when the trimmed mapper name has no 'p'; otherwise a name starting with `/dev/` |
| LoopDevice.LoopNameOfPartition | pkg/arstor/loopdevice.go:570-577 | the mapper device of partition n of a loop device leads back to that loop device, e.g. `/dev/mapper/loop18p1` to `/dev/loop18` |
| LoopDevice.PoolMapperName | pkg/arstor/loopdevice.go:573 | `TrimLeft` strips every leading character of the cutset, so `/dev/mapper/p` followed by a name that starts with 'o' is read as that name, without its 'p' |
| LoopDevice.MapperNameOverTrims | pkg/arstor/loopdevice.go:573 | `TrimLeft` takes a character set: a mapper name starting with one of its letters loses it |
| LoopDevice.TrimLeftCutset | pkg/arstor/loopdevice.go:573 | leading characters from the cutset are all trimmed |
| LoopDevice.LoopDeviceManager.GetLoopDeviceByMapperDevice | pkg/arstor/loopdevice.go:570-590 | a name without 'p' fails before any command; otherwise the derived device is returned exactly when `kpartx` lists the mapper name first for it |
| Resize.TrimQuotes | pkg/arstor/resize.go:139-147 | the result is the input or the input without one enclosing pair of '"'; it changes exactly when the input has length ≥ 2 and '"' at both ends |
| Resize.TrimQuotesRoundTrip | pkg/arstor/resize.go:139-147 | quoting a value and trimming gives it back |
| Resize.TrimQuotesUnquoted | pkg/arstor/resize.go:139-147 | a value not starting with '"' is kept |
| Resize.DiskType | pkg/arstor/resize.go:105-137 | a non-empty partition-table type makes the result "unknown data, probably partitions" |
| Resize.GetDiskType | pkg/arstor/resize.go:105-137 | the token loop computes `DiskType` |
| Resize.LastTypeWins | pkg/arstor/resize.go:119-127 | the last `TYPE` token decides the file-system type |
| Resize.PartitionTableWins | pkg/arstor/resize.go:128-133 | a `PTTYPE` token with a value wins over any `TYPE` token before or after it |
| Resize.ScanKeeps | pkg/arstor/resize.go:110-127 | tokens without a key leave the kept types alone |
| Resize.DiskTypeEmpty | pkg/arstor/resize_test.go:15-21 | empty output has no type |
| Resize.DiskTypeOldFormat | pkg/arstor/resize_test.go:22-77 | old-style output reports "xfs", and a DOS partition table reports partitions |
| Resize.DiskTypeNewFormat | pkg/arstor/resize_test.go:29-42 | the one-line newer output gives "" line by line and "xfs" token by token |
| Resize.DiskTypeLinesType | pkg/arstor/resize_test.go:22-28 | one key per line with a `TYPE` gives that type |
| Resize.DiskTypeLinesPartition | pkg/arstor/resize_test.go:71-77 | one key per line with a `PTTYPE` gives partitions |
| Resize.DiskFormat | pkg/arstor/resize.go:73-103 | exit status 2 means unformatted (""); a printed output yields a non-empty type or an error |
| Resize.DiskFormatPrefersLines | pkg/arstor/resize.go:80-102 | the line-by-line reading wins; the token reading is used only when it finds nothing, and an error follows when both find nothing |
| Resize.ResizeCommand | pkg/arstor/resize.go:24-71 | there is a command exactly for ext3, ext4 and xfs: ext through the device, xfs through the mount path |
| Resize.ResizeFs.GetDiskFormat | pkg/arstor/resize.go:73-103 | one `blkid`; the result is the format read from what it did |
| Resize.ResizeFs.Resize | pkg/arstor/resize.go:24-46 | an unformatted device needs nothing and runs no other command; a known format runs its grow command; any other format is an error |
| Csi.RequiredBytes | pkg/arstor/controllerserver.go:135 | a missing capacity range asks for 0 bytes |
| Csi.Topology | pkg/arstor/controllerserver.go:140-144 | the topology has the node key with the node id and `arstorenabled = "true"`, and no other key |
| ControllerServer.GetControllerServiceCapabilities | pkg/arstor/controllerserver.go:513-528 | one capability per RPC type, in the order given |
| ControllerServer.Supports | pkg/arstor/controllerserver.go:500-511 | accepted exactly when the RPC is UNKNOWN or advertised |
| ControllerServer.AcceptedRpcs | pkg/arstor/controllerserver_test.go:23-53 | a non-ephemeral controller accepts every RPC but publish, capacity and read-only; an ephemeral one accepts only UNKNOWN |
| ControllerServer.ControllerServer.constructor | pkg/arstor/controllerserver.go:54-74 | an ephemeral controller advertises nothing; otherwise the six RPCs |
| ControllerServer.ControllerServer.ValidateControllerServiceRequest | pkg/arstor/controllerserver.go:76-87 | fails exactly for an RPC neither UNKNOWN nor advertised, with the RPC's name |
| ControllerServer.ControllerServer.ValidateRequest | pkg/arstor/controllerserver.go:500-511 | fails exactly for an RPC neither UNKNOWN nor advertised, with "unsupported capability" |
| ControllerServer.RequestedAccessTypes | pkg/arstor/controllerserver.go:105-114 | the loop records exactly whether some capability asks for block and whether some asks for mount |
| ControllerServer.AccessTypeOf | pkg/arstor/controllerserver.go:125-132 | block exactly when some capability asks for block, mount otherwise |
| ControllerServer.CreateVolumeArgsError | pkg/arstor/controllerserver.go:96-138 | accepted exactly with a name, capabilities, not both block and mount, and a capacity below 1 TiB; OUT_OF_RANGE exactly for the capacity |
| ControllerServer.ReuseReply | pkg/arstor/controllerserver.go:148-165 | an existing volume at least as large is returned with its own id and size; a smaller one gives ALREADY_EXISTS |
| ControllerServer.ControllerServer.CreateVolume | pkg/arstor/controllerserver.go:89-219 | gate and argument errors change nothing; a taken name is answered from the catalog with nothing changed; otherwise the request sent has this id, name, size and access type; success files exactly that volume and returns it; a content source naming neither a snapshot nor a volume succeeds with nothing created |
| ControllerServer.ControllerServer.FileVolume | pkg/arstor/controllerserver.go:181-218 | the answer carries the new id, the size, the parameters, the content source and the node topology; failures are INTERNAL; a source with neither snapshot nor volume files nothing and still answers; a success from a source files the volume; a failed create or restore leaves no entry but possibly removes the new id |
| ControllerServer.ControllerServer.DeleteVolume | pkg/arstor/controllerserver.go:221-256 | an empty id is INVALID_ARGUMENT and an unadvertised capability is refused, both with nothing changed; an unknown id succeeds with nothing changed; a volume whose file is bound to a loop device is refused with the catalog and the array untouched; success removes exactly that volume |
| ControllerServer.SnapshotReply | pkg/arstor/controllerserver.go:369-386 | a snapshot is reported with its id, source, time and size, ready exactly when it is ready and has a file |
| ControllerServer.ControllerServer.CreateSnapshot | pkg/arstor/controllerserver.go:349-417 | a taken name is answered from the catalog as it stands, whatever the source volume; otherwise success files a ready snapshot of the source under the new id at the given time; an unknown source fails with nothing changed |
| ControllerServer.ControllerServer.DeleteSnapshot | pkg/arstor/controllerserver.go:419-437 | an empty id is INVALID_ARGUMENT; a missing or path-less snapshot succeeds; success removes exactly that snapshot; failure keeps it |
| ControllerServer.ValidateVolumeCapabilities | pkg/arstor/controllerserver.go:264-294 | confirmed exactly when the id is set, the capability list is non-empty and every capability names an access type; the confirmation echoes the request; every refusal is INVALID_ARGUMENT |
| ControllerServer.ControllerServer.ListVolumes | pkg/arstor/controllerserver.go:330-345 | every catalogued volume once, with its id and size |
| ControllerServer.ControllerServer.ListSnapshotsAsWritten | pkg/arstor/controllerserver.go:439-457 | every catalogued snapshot once, but each entry carries the creation time of the snapshot visited last |
| ControllerServer.SharedTimeMisreports | pkg/arstor/controllerserver.go:448 | with two snapshots taken at different times, the shared time misreports some entry |
| ControllerServer.ControllerServer.ListSnapshots | pkg/arstor/controllerserver.go:439-457 | every catalogued snapshot once, with its own id, source, time and size, reported ready |
| ControllerServer.ControllerServer.ControllerExpandVolume | pkg/arstor/controllerserver.go:459-498 | a missing id or range is INVALID_ARGUMENT, 1 TiB or more is OUT_OF_RANGE, an unknown id is NOT_FOUND, a smaller size is INTERNAL, all without asking the array; success truncates the file to the requested size and asks for node expansion |
| NodeServer.EphemeralDecision | pkg/arstor/nodeserver.go:83-86 | a request is ephemeral exactly when its flag is "true", or when the flag is absent or empty and the server is ephemeral |
| NodeServer.PublishArgsError | pkg/arstor/nodeserver.go:76-99 | a missing id or target path is always INVALID_ARGUMENT; an ephemeral request needs nothing more; otherwise the staging path and capability are required |
| NodeServer.StageArgsError | pkg/arstor/nodeserver.go:450-459 | accepted exactly with an id, a staging path and a capability |
| NodeServer.MountFsType | pkg/arstor/nodeserver.go:497-505 | the mount capability's file system, "xfs" when it names none |
| NodeServer.DeletesOnUnpublishIff | pkg/arstor/nodeserver.go:353-356 | the index tests mean: starts with "ephemeral-" and contains no "pvc-" |
| NodeServer.EphemeralNamesDeleted | pkg/arstor/nodeserver.go:230-235 | a volume created for an inline ephemeral volume whose id has no "pvc-" is deleted on unpublish |
| NodeServer.BlockTarget | pkg/arstor/nodeserver.go:141-156 | the block target is ready exactly when it existed or was created without error; agrees with the code in every other case |
| NodeServer.CreatedTargetRefused | pkg/arstor/nodeserver.go:141-156 | as written, a target that had to be created is refused; as intended, it is ready |
| NodeServer.RollbackMessage | pkg/arstor/nodeserver.go:293-300 | the message is kept, with the release error added only when there is one; matches the code whenever the code does not crash |
| NodeServer.RollbackPanicsAfterRelease | pkg/arstor/nodeserver.go:297 | as written, a failed mount followed by a successful release dereferences a nil error |
| NodeServer.ReleaseFailureIgnored | pkg/arstor/nodeserver.go:357 | as written, a failed release does not stop the deletion; as intended, it does |
| NodeServer.SoleBinding | pkg/arstor/nodeserver.go:391-393 | a file backed by exactly one device is listed as that device |
| NodeServer.DetachSole | pkg/arstor/nodeserver.go:600-606 | detaching the only device of a file leaves the file unbound |
| NodeServer.NodeInfoOf | pkg/arstor/nodeserver.go:663-676 | the node id, the volume limit, and a topology of exactly the node key and `arstorenabled = "true"` |
| NodeServer.NodeInfoOfTestNode | pkg/arstor/nodeserver_test.go:23-52 | the answer the unit test expects for node "CSINodeID" with 1000 volumes |
| NodeServer.NodeServer.constructor | pkg/arstor/nodeserver.go:55-64 | the server keeps the node id, mode, limit and client, with a loop-device manager and probe over the same node |
| NodeServer.NodeServer.NodeGetInfo | pkg/arstor/nodeserver.go:663-676 | answers `NodeInfoOf` for the server's id and limit |
| NodeServer.NodeServer.CheckVolume | pkg/arstor/nodeserver.go:462-470 | found exactly when catalogued, after a reload if needed; a known volume changes nothing; catalogued entries are kept; the node's log only grows |
| NodeServer.NodeServer.MountToLoopDevice | pkg/arstor/nodeserver.go:374-402 | one binding is returned with no attach; none leads to one free-device query and one attach of that device to the file; more than one is an error with no attach; for a plain path the returned device is bound to the file |
| NodeServer.NodeServer.MountTwice | pkg/arstor/nodeserver.go:378-402 | on a plain file bound to no device, a successful first call binds one device to the file, and the second call returns that same device unless its own listing fails |
| NodeServer.NodeServer.UnmountLoopDevice | pkg/arstor/nodeserver.go:562-616 | an unknown volume falls back to the sweep by id; a known volume with no binding succeeds with no detach; one binding is detached; more than one is an error; at most one detach; for a plain file success leaves it unbound; the node's log only grows |
| NodeServer.NodeServer.FormatAndMount | pkg/arstor/nodeserver.go:535-559 | format-and-mount first; after a failure, no retry when the detected format differs from the requested one, and one plain mount when they are equal; no error exactly when one of the two mounts took |
| NodeServer.NodeServer.AttachAndMount | pkg/arstor/nodeserver.go:512-520 | a failed loop-device lookup changes no binding and mounts nothing; otherwise the device backs the file (for a plain path), a format-and-mount of it on the target is in the node log after the call began, and no mount error exactly when a mount took; the node's log only grows; a failed mount is followed at least by the format check |
| NodeServer.NodeServer.MountStagingPath | pkg/arstor/nodeserver.go:490-530 | failures are INTERNAL; once a loop device is obtained it is bound to the file (for a plain path), a format-and-mount of it on the staging path with the capability's file system and flags is in the node log, logged after the call began, staging succeeds exactly when a mount took, and a failure ends by removing the staging path; without a device the loop table is unchanged, and a success then comes from a probe that found the path already mounted, which is all that was asked; the node's log only grows |
| NodeServer.NodeServer.NodeStageVolume | pkg/arstor/nodeserver.go:443-533 | NOT_FOUND exactly for a volume not catalogued after a reload; a block volume succeeds with no loop device and, when ready, nothing changed; once a device is obtained it is bound to the volume file (for a plain path), and staging succeeds exactly when its format-and-mount on the staging path took, a failure ending with the removal of the staging path; the mount is logged after the call began, and the node's log only grows |
| NodeServer.NodeServer.NodeUnstageVolume | pkg/arstor/nodeserver.go:618-661 | a missing id or staging path is INVALID_ARGUMENT with nothing changed; a failed probe of the staging path is INTERNAL with nothing else asked; otherwise the path is next removed when the probe found nothing mounted and unmounted when it found a mount, and a failure of that step is INTERNAL with nothing else asked; success needs that step to have succeeded; catalogued volumes stay; at most one loop device is detached; success on a known plain-path volume leaves its file unbound |
| NodeServer.NodeServer.NodePublishEphemeralVolume | pkg/arstor/nodeserver.go:218-314 | success leaves a ready 1 GiB volume named "ephemeral-" + id and either a mount of its loop device on the target that took, logged after the call began, or, without a device, a last probe that found the target already mounted; the rollback happens exactly when a loop device was obtained and its mount failed, and a mount that took means success; a rollback is reported INTERNAL with a message starting with the failed mount, and removes the volume when its deletion reported no error; on the final log, which extends the log as the mount left it, the mount did not take after a rollback, which begins by removing the target, and a mount that took means success |
| NodeServer.NodeServer.MountEphemeral | pkg/arstor/nodeserver.go:256-305 | the mount part of the ephemeral publish: a success leaves the catalog as it was; a device's format-and-mount on the target is logged after the call began, its error is absent exactly when that mount took, and a success with a device ends with the log holding that mount (with the device bound to a plain file); a success without a device is the one probe that found the target mounted, with the loop table unchanged; the rollback happens exactly when a loop device was obtained and its mount failed, is INTERNAL with a message starting with the failed mount, and removes the volume when its deletion reported no error; the log as the mount left it is a prefix of the final log, a rollback adds to it starting with the removal of the target, and on the final log the mount did not take after a rollback while a mount that took there means success |
| NodeServer.NodeServer.RollBackEphemeral | pkg/arstor/nodeserver.go:291-305 | after a failed mount: the message is the mount failure, then the release failure when there is one (the corrected guard), then the deletion failure exactly when the deletion failed; the volume is gone from the catalog whenever its deletion reported no error; no other volume changes; the node's log only grows, first by the removal of the target |
| NodeServer.NodeServer.PublishBlock | pkg/arstor/nodeserver.go:127-183 | failures are INTERNAL; success has obtained a loop device; for a plain path that device is bound to the volume file; once the device is known, success means exactly that the target was made ready (found, or created) and then found mounted or bind-mounted; without a device the loop table is unchanged |
| NodeServer.NodeServer.BindBlockDevice | pkg/arstor/nodeserver.go:141-181 | every failure is INTERNAL; the loop table is unchanged; success means exactly that the target was made ready (found, or its directory and file created, under the corrected guard) and then found mounted or bind-mounted; every failed bind mount is followed by the removal of the target |
| NodeServer.NodeServer.PrepareBlockTarget | pkg/arstor/nodeserver.go:141-156 | the target is looked up, and when absent its directory and file are created; no error exactly when it was found or both creations succeeded (the corrected guard); nothing else is asked of the node |
| NodeServer.NodeServer.BindOnTarget | pkg/arstor/nodeserver.go:158-180 | the target is probed first; success means exactly that it was found mounted or the bind mount of the device took; every failed bind mount is followed by the removal of the target; failures are INTERNAL |
| NodeServer.NodeServer.PublishMount | pkg/arstor/nodeserver.go:184-213 | the target is probed first, then the staging path is bind-mounted on it with the given file system and options, whose outcome is the answer; the node log only grows; the loop table is untouched; failures are INTERNAL |
| NodeServer.NodeServer.NodePublishVolume | pkg/arstor/nodeserver.go:66-216 | argument errors change nothing; an ephemeral success creates an "ephemeral-" volume; otherwise NOT_FOUND exactly for an uncatalogued volume, success needs a ready volume, a mount capability leaves the loop table unchanged, and a block success publishes a device bound to the volume file; a block publish succeeds exactly when the target was made ready and bound; a file-system publish probes the target and the bind mount of the staging path decides the answer |
| NodeServer.NodeServer.NodeUnpublishVolume | pkg/arstor/nodeserver.go:316-372 | a missing target path or id is INVALID_ARGUMENT with nothing changed; a failed probe is INTERNAL; with nothing mounted the target is removed (a missing one counts as removed) and nothing else is done; a failed unmount is INTERNAL with the catalog unchanged; the catalog changes only by deleting a volume whose name starts with "ephemeral-" and has no "pvc-", only after its loop device was released without error (the corrected guard), leaving a plain-path file unbound; a success after an unmount has deleted such a volume; after a probe that found a mount the node's log goes on from that probe and the unmount, whose logged outcome is `unmounted` |
| NodeServer.NodeServer.DeleteEphemeral | pkg/arstor/nodeserver.go:349-369 | a volume not catalogued, or not named as an ephemeral one, is left alone with nothing asked; otherwise it is deleted only after its loop device was released without error (the corrected guard), leaving a plain-path file unbound, and a success has deleted it; failures are INTERNAL; the node's log only grows |

## Left out

- Concurrency: the worker pool and timer of `RunDetachLostLoopDevice`, and the unsynchronised maps. The model is sequential and models one sweep.
- Back-off polling in `WaitVolumeReady`, `WaitSnapshotReady` and `PathExists`. One poll is modelled; nothing else runs meanwhile, so more polls would see the same catalog.
- UUIDs and clock values are parameters (`volumeID`, `snapshotID`, `now`). Go's map iteration order is a ghost output (`order`).
- The Docker transport of the array's tool (pkg/arstor/tool/dockerclient.go, dockercommand.go, utils.go) is not part of this model. The `Tool` interface is an oracle.
- Real mounting, formatting, `os.Stat`, inode, size and ctime queries, and the directory walk are oracles on `Host`. Their answers are unconstrained.
- Host.Host.GetFileSize: the refusal of an empty name ("file is empty") is not told apart from other failures.
- Host.Host.GetFileCreationTime: same as GetFileSize; the empty-name refusal is folded into the other failures.
- `NewArStorClient`'s configuration handling (mount retries, hash share directory, mount-point check, tool creation) is out of scope. The constructor models the client it returns.
- `os.Exit` in `LoadArStorData` becomes a returned error, with the state as it stood at the exit.
- A Go panic (the index out of range in `isFullArStorDir`, the mapper name without 'p') becomes an error starting with "panic: ", which callers propagate at once.
- `ControllerGetCapabilities`, `ControllerPublishVolume`, `ControllerUnpublishVolume`, `GetCapacity`, `NodeExpandVolume`, `NodeGetVolumeStats` and `NodeGetCapabilities` are not modelled. They are fixed answers or sit outside the named core. `NodeGetCapabilities` is only the constant `NodeServer.NodeCapabilities`.
- The block-plus-mount check of `NodePublishVolume` (pkg/arstor/nodeserver.go:94-96) cannot fire, because the access type is a protobuf `oneof`.
- The catalog lookup and readiness wait right after a successful `CreateVolume` in `NodePublishEphemeralVolume` (pkg/arstor/nodeserver.go:240-254) are not modelled, because the volume was just filed with its path.
- A failed bind mount of a block target is assumed not to be a "not exist" error (pkg/arstor/nodeserver.go:174).
- `LoadArStorData`'s own failure is ignored by the node handlers, as in the code.
- `NewResizeFs` is called per request in the code. The model uses one resizer per node server, which has no state.
- Error and log texts are kept where a contract speaks of them and abbreviated elsewhere.
- ControllerServer.ControllerServer.DeleteVolume: the refusal of a volume still bound to a loop device is stated only for paths without ':' and "loop". For other paths, `ListLoopDeviceByFile` may misread the listing.
- NodeServer.NodeServer.MountToLoopDevice: the exact binding facts are stated only for backing files whose path has no ':' and no "loop". That is the case in which the listing parser reads one name per device.
- NodeServer.NodeServer.UnmountLoopDevice: same restriction to such plain paths as MountToLoopDevice.
- ArStor.ArStorClient.PlaceVolume: the node records only whether a request failed, not its text, so a failure at a node step of the attempt (the directory or the file missing) does not pin the error text; only the array's answers tie the error to the log.
- ArStor.ArStorClient.CreateVolume: same as PlaceVolume for the error of the attempt in the first shard.
- ArStor.ArStorClient.CreateVolumeFile: same as PlaceVolume; `CreateOrRemove` and `FirstAttempt` inherit it.
- NodeServer.NodeServer.BindBlockDevice: runs the corrected block-target guard (`BlockTarget`). As written, a block publish to a target that did not exist yet creates it and then fails with INTERNAL "failed to check if the target block file exists" (pkg/arstor/nodeserver.go:142-156); `BlockTargetAsWritten` models that.
- NodeServer.NodeServer.PrepareBlockTarget: the corrected guard of BindBlockDevice, with the same difference from the code.
- NodeServer.NodeServer.PublishBlock: inherits the corrected guard of BindBlockDevice.
- NodeServer.NodeServer.NodePublishVolume: a block publish inherits the corrected guard of BindBlockDevice.
- NodeServer.NodeServer.RollBackEphemeral: runs the corrected message (`RollbackMessage`). As written, a failed mount followed by a successful release of the loop device dereferences a nil error (pkg/arstor/nodeserver.go:297-298): the handler panics and never deletes the volume (pkg/arstor/nodeserver.go:302); `RollbackMessageAsWritten` models that.
- NodeServer.NodeServer.NodePublishEphemeralVolume: inherits the corrected rollback of RollBackEphemeral, through `MountEphemeral`. After a rollback only the first event (the removal of the target) is pinned; what the release and the deletion log after it is stated only as growth of the log.
- NodeServer.NodeServer.NodeUnpublishVolume: runs the corrected guard (`UnpublishStops`). As written, a failed release of the loop device is ignored, and the volume is deleted and success returned (pkg/arstor/nodeserver.go:357-366); `UnpublishStopsAsWritten` models that. `DeleteEphemeral` holds that guard.
- NodeServer.NodeServer.DeleteEphemeral: runs the corrected guard (`UnpublishStops`), as NodeUnpublishVolume above.

## Findings

| source | as written | input that shows it | evidently intended | confidence | as-written member | corrected member |
|---|---|---|---|---|---|---|
| pkg/arstor/nodeserver.go:141-156 | the block target is created under a new, shadowing `err`, and the check after it reads the outer "not exist" error | a block publish to a target path that does not exist yet: the file is created, then the request fails | a target created without error is ready | not executed | NodeServer.BlockTargetAsWritten | NodeServer.BlockTarget |
| pkg/arstor/nodeserver.go:297 | after a failed mount of an ephemeral volume the guard tests `err` (the mount error, always set) and then calls `unmountErr.Error()` | a failed mount followed by a successful loop-device release: `unmountErr` is nil and the handler panics | add the release error only when there is one | not executed | NodeServer.RollbackMessageAsWritten | NodeServer.RollbackMessage |
| pkg/arstor/nodeserver.go:357 | after releasing the loop device the guard tests `err` (nil at that point) instead of `unmountErr` | unpublish of an ephemeral volume whose loop release fails: the volume is deleted anyway while a device still holds its file | stop when the release fails | not executed | NodeServer.UnpublishStopsAsWritten | NodeServer.UnpublishStops |
| pkg/arstor/controllerserver.go:442-449 | each entry takes `&snapshot.CreationTime` of the one loop variable (Go before 1.22) | two snapshots with different creation times: both entries report the time of the one visited last | each entry carries its own snapshot's time | not executed | ControllerServer.ControllerServer.ListSnapshotsAsWritten | ControllerServer.ControllerServer.ListSnapshots |
