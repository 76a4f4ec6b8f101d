# WavOS: file system, heap, tasks and text, verified

A Dafny model of the kernel parts of WavOS whose correctness is not visible from any one function,
with proofs of what they promise together.

- **The FAT32 volume** (`src/filesystem/fat.c`). The drive is an array of 512-byte sectors. The
  table, stored twice, is shown to be a map of numbered entries; chains in it to be acyclic lists.
  On top of that stands a tree of files and directories: `Volumes.Holds(p, t)` says that the
  partition `p` stores the tree `t` (chains are disjoint, acyclic and ended, every size rounds up to
  its chain's length, the free count is the number of free clusters, every directory's entries
  describe its kids). Every operation is proved to lead from one stored tree to another, the one it
  should be. `Views.View` reads the tree as a map from full names to contents, and the operations of
  `Commands` are specified by what they do to this map. `Runs.Run` carries out any run of them: the
  volume stays sound, the working directory stays a directory, and names lead where the map says.
- **Long names and paths**: splitting a name into directory entries and reading it back, `strtok`,
  following a path on the disk, and the working directory whose text has to agree with its cluster.
- **The heap** (`src/memorymanagement.c`): a doubly linked list of chunks that tiles its region.
- **Task switching** (`src/multitasking.c`, `src/multitask.asm`): round robin over kernel stacks, for
  any run of the tasks, from the creation of a task to its first instruction.
- **Numbers as text** (`src/common/tools.c`).

## Two readings of the code

In a few places the compiled code differs from what it is evidently meant to do. `Geometry.written`
(and `Heap.sizeFirst`) select the reading: the text as compiled, or as meant. The proofs cover both;
where the compiled text fails, a lemma says exactly when.

| place | as compiled | exact condition |
|---|---|---|
| `SECTOR_TO_BYTE` is the bare text `512 / 4` (fat.c:7, 62, 78) | the sector of entry i is i/512/4, so entries share slots | `FatTable.MapLawIff`: right iff at most 128 entries are scanned |
| the write loops' test is `>` (fat.c:869, 1003) | one sector too many per cluster | `WriteLoops.ReadsBackIff`: data of a given size behind a file of a given size always reads back iff every sector that the loop stores from the old end on comes to its place (`InPlace`); for a whole file, `WriteLoops.OneLapIff`: iff it fits one cluster, or overruns it by at most a sector into a next cluster right behind |
| the test of the loops that look for items is `<=` (fat.c:493, 684, 752, 879, 1013, 1128, 1180, 1300) | one sector too many per cluster | `Overruns.RightIff`: right whatever lies around the directory iff its own sectors that show an item, in the order in which the loop comes across them until an end mark (`Overruns.CompiledOrder`, `Overruns.Heard`), come one after the other, and the loop leaves the directory nowhere before that. `Walks.RightAnywhereAlone`: if the cluster behind the first one is not the directory's, iff the first cluster holds an end mark. `Walks.RightAnywhereAdjacent`: if it is the directory's second and its first sector holds an item or an end mark, iff an end mark lies in the first cluster or that sector |
| so is that of the loops that look for room (fat.c:422, 635) | one sector too many per cluster | `Overruns.FindsIff`: iff the first of the directory's own sectors with room is the same in that order, and the loop does not leave the directory before it. `Walks.FindsAnywhereAlone`: if the cluster behind the first one is not the directory's, iff the entry to be chosen lies in the first cluster |
| `>> 16` for the high half (fat.c:480, 744, 815, 936) | the high half is lost | `Directories.FirstShiftedIff`: right iff the cluster is below 65536 |
| `name_utf16` is not cleared behind the name (fat.c:342-344) | the rest of the stack may follow the name | `LongNames.RoundTripIff` |
| the scan for free entries counts gaps that are apart, and a zero entry as all that is left of the sector, again at every zero (fat.c:382-391, 589-598) | a run may land on entries in use, behind an end mark, or past the end of the sector's 16 entries | `Placement.ScanIff`: right iff the run fits what is left of its sector and all under it was free; `Placement.SectorTakenIff` says which sectors are taken; examples `Placement.ScanExample`, `Placement.OverrunExample` |
| rewriting to size 0 keeps the entry's first cluster (fat.c:842-848) | the volume stores no tree any more | `Rewriting.RewriteFileByDirCluster`: iff the file had bytes |
| a file without clusters takes its first one before the room is checked (fat.c:827-839) | the cluster is lost and the count is wrong | `Rechaining.Rechain`, where `Guarded` holds: iff the request is not `Affordable` and a cluster is free. Outside `Guarded`, with exactly one cluster less free than needed, cluster numbers are used that nobody has set |
| on a full volume, an end mark is stored under the number 0xFFFFFFFF before the write is refused (fat.c:828-837) | two sectors far behind, if the drive has them, may change | `FullVolume.StrayedNothingIff`: nothing changes iff the drive ends before them or they hold the mark. `FullVolume.StrayedVolume`: the tree is kept where the stores are harmless; as compiled they always are (`FullVolume.CompiledSpares`) |
| a directory takes its cluster without asking whether one is free (fat.c:622-630) | on a full volume the cluster is number 0xFFFFFFFF (`Allocation.FindEmptyCluster`), and the count falls below 0 | `MakeDir.CreateDirByParentCluster`: where the parent has room, a cluster is taken iff `freeClusterCount > 0`; otherwise the volume stores no tree any more |
| `free` unlinks the next chunk before adding its size (memorymanagement.c:91-92) | the size of another chunk is added | `Heaps.GivenWrittenIff`, example `Heaps.WrittenFreeExample` |
| `delete_file` does not ask whether the name is a directory's (fat.c:1425-1436) | what lies below the directory is lost | `Commands.DeleteFileAt`, `Leaks.RemovedNoLeaksIff`: iff something below it owns a cluster |
| `delete_file` goes on with the directory's next cluster, still holding the file's long-name entries (fat.c:444-496) | an entry without a long name is taken for the file and deleted too | `Removal.DeleteFileByDirCluster`: iff `Removal.DeletesMore`, that is, the first entry in use behind the file's cluster is a short one; example `Removal.DeletesMoreExample`. Names on all entries protect from it (`ReadingOn.NamesProtect`) |
| deleting does not look at the working directory (fat.c:1425-1473) | it is left dangling | `Commands.DeleteFileAt`, `Commands.DeleteDirAt`: iff it lies at or below the name |

With `written` set, a stored directory has to hold an end mark in its first cluster
(`Trees.EndsEarly`), and what a write leaves is a file only where the clusters lie as
`Rewriting.Aligned` asks; a file within one cluster always does (`Rewriting.AlignedInOne`).

## Modules

`Bytes`, `Drives` (ata.c), `FatTable`, `Chains`, `FileData` (bytes of files in clusters), `WriteLoops`
(what the write loops leave), `Partitions` (the descriptor), `Allocation`, `Files` (read, write and
append loops), `Strings`, `LongNames`, `Directories` (rows of entries), `Trees`, `Lookup`, `Volumes`,
`FullVolume` (stores without a cluster), `Uniqueness`, `SlotScan` and `Placement` (where new entries
go), `Walks` and `Overruns` (what the compiled directory loops see), `ReadingOn` (what a deletion does
in later clusters), `Creation`, `MakeDir`, `Removal`, `Rechaining`, `Rewriting`, `Leaks` (clusters that
nobody owns), `Views`, `Paths`, `Commands`, `Runs` (operations one after the other), `Formatting` (where
they begin), `Heaps`, `Tasks`, `Tools`.
`dafny verify dfyconfig.toml` checks them all.

The clusters a file or directory owns, the tree, and the table as a sequence of numbers are ghost:
they appear in contracts and never in what is computed.

## Model

| member | source | states |
|---|---|---|
| Drives.Drive.Read28 | src/drivers/ata.c:80-112 | delivers a prefix of the sector and leaves the rest of the buffer; nothing for a sector that cannot be addressed |
| Drives.Drive.Write28 | src/drivers/ata.c:119-150 | stores the bytes and zero-fills the sector; changes no other sector, and none when the request is refused |
| Bytes.LittleEndian | include/filesystem/fat.h:50-74 | words as the packed structures hold them, low byte first |
| FatTable.SetSlotBytes | src/filesystem/fat.c:81-82 | storing an entry changes its four bytes of the sector and no other |
| FileData.BaseIs | src/filesystem/fat.c:125-125 | where a cluster begins: they are numbered from 2 |
| FatTable.SlotsDistinctIff | src/filesystem/fat.c:62-66 | when different entries have different slots |
| FatTable.MapLawIff | src/filesystem/fat.c:58-90 | a read after a write sees the value at that entry and the old value elsewhere, for all entries, exactly when slots are distinct |
| FatTable.RunRefinesMap | src/filesystem/fat.c:58-90 | after any run of writes both copies agree and each entry reads as the last value stored, cut to 28 bits |
| Partitions.Partition.ReadFatEntry | src/filesystem/fat.c:58-67 | the entry of the abstract table, which is the masked word at byte 4 * (i mod 128) of the sector that the code computes |
| Partitions.Partition.WriteFatEntry | src/filesystem/fat.c:74-90 | updates one entry of the abstract table; both copies stay equal, data area and FSInfo stay, and so do the sectors before the table |
| Partitions.Partition.WriteAnyEntry | src/filesystem/fat.c:74-90 | the same stores for any number, in the table or not: what becomes of the whole drive |
| Partitions.Partition.UpdateFSInfo | src/filesystem/fat.c:115-118 | the FSInfo sector shows the free count in bytes 488 to 491 and else what it showed when it was found; no other sector changes |
| Chains.WalkDistinct | src/filesystem/fat.c:153-163 | a chain that ends visits no cluster twice |
| Chains.WalkUnique | src/filesystem/fat.c:190-206 | the first cluster determines the chain |
| Chains.ExtendChain | src/filesystem/fat.c:232-266 | linking the first free clusters to a chain gives the old chain followed by them; exactly they stop being free; every other chain stays |
| Chains.TruncateChain | src/filesystem/fat.c:274-295 | the chain keeps its front, exactly the rest becomes free; every other chain stays |
| Chains.ExtendThenTruncate | src/filesystem/fat.c:232-295 | removing what was just allocated restores the table, up to which end mark is stored |
| Chains.FirstFreeUnique | src/filesystem/fat.c:169-182 | there is one list of the first n free clusters |
| Allocation.FindEmptyCluster | src/filesystem/fat.c:139-146 | the smallest free cluster, or 0xFFFFFFFF when none is free |
| Allocation.ClusterChainLen | src/filesystem/fat.c:153-163 | ends on every chain and counts its clusters |
| Allocation.FindClusterChain | src/filesystem/fat.c:190-206 | yields the chain, NULL for cluster 0 |
| Allocation.GetLastClusterInChain | src/filesystem/fat.c:213-224 | yields the last cluster of the same chain |
| Allocation.FindFreeClusters | src/filesystem/fat.c:169-182 | the first free clusters in increasing order, as many as asked for when the count tells the truth; NULL when the count is too small |
| Allocation.AllocateNewClusters | src/filesystem/fat.c:232-266 | either continues the chain with the first n free clusters and lowers the count by n, or changes nothing; the last one gets the mark 0x0FFFFFF8; FSInfo and the sectors before the table as `UpdateFSInfo` says |
| Allocation.RemoveClustersFromChain | src/filesystem/fat.c:274-295 | cuts the chain, releases exactly the last k clusters, raises the count by k; leaves an empty file alone; marks and FSInfo as above |
| WriteLoops.AppendedReadsBack | src/filesystem/fat.c:851-876 | where every sector comes to its place, the file reads as its old bytes and then the data, and no other cluster changes; with no old bytes this is rewriting |
| WriteLoops.ReadsBackIff | src/filesystem/fat.c:972-1010 | for a chain and two sizes: all data reads back exactly when every sector that is stored comes to its place |
| WriteLoops.OneLapIff | src/filesystem/fat.c:851-876 | when the compiled write loop does that for a whole file |
| Files.ReadFileByCluster | src/filesystem/fat.c:1192-1221 | prints exactly the file's bytes, although it may read a sector too many |
| Files.StoreToChain | src/filesystem/fat.c:851-876 | the data area becomes what storing the data from the first sector on leaves, sector by sector, one lap per cluster |
| Files.AppendToChain | src/filesystem/fat.c:972-1010 | the same from the old end on: sectors before it are left alone, the one that holds it keeps its front |
| Strings.Strcmp | src/common/str.c:26-33 | 0 exactly for equal strings, else the first difference |
| Strings.Concat | src/common/str.c:94-106 | the two strings one behind the other |
| Strings.Tokenizer.Strtok | src/common/str.c:59-88 | yields the next maximal delimiter-free piece; changes at most the delimiter behind it |
| Strings.AllTokens | src/common/str.c:59-88 | calling until NULL ends and yields exactly the pieces in order; only delimiters were overwritten, and all pieces can still be read |
| LongNames.ReadLongFilename | src/filesystem/fat.c:38-52 | the name that a row of entries holds, under strcmp |
| LongNames.EncodeLongName | src/filesystem/fat.c:341-371 | as many entries as the name takes, numbered from 1, the last one marked with 0x40, with attribute 0x0F, the checksum and the zero fields, and the name's units in their places, field by field |
| LongNames.RunSpells | src/filesystem/fat.c:400-402 | the same for the entries as they are stored, last part first |
| LongNames.RoundTripIff | src/filesystem/fat.c:38-52 | decoding an encoded name of up to 195 characters gives the name back exactly when the unit behind it is an end |
| Directories.FirstShiftedIff | src/filesystem/fat.c:480-481 | when the compiled expression for the first cluster is right |
| Directories.EntryFields | include/filesystem/fat.h:50-63 | first cluster, size and attributes of a short entry, byte by byte, and what marks it deleted |
| Directories.SlotBytes | src/filesystem/fat.c:379-379 | entry i of a sector begins at byte 32 * i |
| Directories.CreatedItems | src/filesystem/fat.c:396-417 | an entry run put over free entries adds one item and keeps all others |
| Directories.ErasedItems | src/filesystem/fat.c:486-489 | marking an item's entries removes that item and no other |
| SlotScan.FindSlot | src/filesystem/fat.c:380-391 | the count and index that the scan of a sector ends with |
| Placement.RoomIff | src/filesystem/fat.c:382-391 | a sector is taken exactly when the weights of its entries exceed the request: 1 for a deleted one, for a zero one all that is left |
| Placement.SectorTakenIff | src/filesystem/fat.c:382-391 | in terms of how many entries are deleted and where the zeros begin |
| Placement.PlacementIff | src/filesystem/fat.c:396-417 | readers see the new item and the old ones unchanged exactly when everything under the run was free and no end mark lies before it |
| Placement.ScanIff | src/filesystem/fat.c:380-417 | the entry that the scan chooses is right exactly when the run fits what is left of its sector and everything under it was free |
| Placement.ScanExample | src/filesystem/fat.c:382-391 | two gaps that are apart are added up |
| Placement.OverrunExample | src/filesystem/fat.c:382-417 | fourteen entries in use and then zeros: a run of three is taken and its short entry is lost |
| Overruns.RightIff | src/filesystem/fat.c:1097-1131 | for every directory that is in order: the compiled loop sees every item once and nothing else, whatever lies around, exactly when reading the directory's own sectors in the compiled order until an end mark comes across those with an item as they stand in the directory, and across no other |
| Walks.RightAnywhereAlone | src/filesystem/fat.c:1097-1131 | unless the cluster behind the first is the directory's: exactly when the first cluster holds an end mark |
| Walks.RightAnywhereAdjacent | src/filesystem/fat.c:1097-1131 | if it is the second one: exactly when an end mark lies in the first cluster or the first sector of the second; otherwise items are seen twice |
| Overruns.FindsIff | src/filesystem/fat.c:374-425 | the compiled search for room ends in the right sector, whatever lies around, exactly when the first of the directory's own sectors with room is the same in the compiled order and the search does not leave the directory before it |
| Walks.FindsAnywhereAlone | src/filesystem/fat.c:374-425 | unless the cluster behind the first is the directory's: exactly when the entry to be chosen lies in the first cluster |
| Lookup.ScanSector | src/filesystem/fat.c:1102-1127 | one sector's entries: the first wanted item, or none so far, or the directory's end |
| Lookup.Locate | src/filesystem/fat.c:1090-1133 | the first entry of the name and its place, or that there is none |
| Trees.PutStored | src/filesystem/fat.c:335-1017 | a change inside one directory's clusters leaves everything else stored as it was |
| Volumes.EmptyVolume | src/filesystem/fat.c:96-110 | a freshly formatted volume stores the empty tree |
| Formatting.Format | src/filesystem/fat.c:58-118 | any drive and layout that can be mounted can be brought, by the code's own stores, to hold the empty tree with the working directory at its root and no cluster lost: every run has a beginning |
| FullVolume.StrayedNothingIff | src/filesystem/fat.c:828-829 | storing an end mark under 0xFFFFFFFF leaves the drive as it is exactly when it ends before the two sectors or they hold the mark |
| FullVolume.StrayedVolume | src/filesystem/fat.c:828-829 | where those stores are harmless, table, count and clusters are the same afterwards |
| FullVolume.CompiledSpares | src/filesystem/fat.c:62-78 | as compiled they always are |
| Volumes.KidAdded | src/filesystem/fat.c:335-428 | a new entry for clusters nobody owned gives a stored tree with one more kid |
| Volumes.KidRemoved | src/filesystem/fat.c:435-497 | an erased entry gives a stored tree without that kid |
| Volumes.KidUpdated | src/filesystem/fat.c:818-876 | a rewritten entry gives a stored tree with that kid's new contents |
| Uniqueness.TreeUnique | src/filesystem/fat.c:1090-1221 | two trees stored by the same disk are equal: what is read back is determined |
| Uniqueness.VolumeUnique | src/filesystem/fat.c:96-110 | a volume stores one tree |
| Creation.CreateFileByDirCluster | src/filesystem/fat.c:335-428 | one more kid, an empty file, or a full directory and nothing changed; where the run lands on something else, readers do not see one item more; on the disk, the long-name entries spell the name, the short one has the given 11 bytes, the attributes, size 0 and its other bytes as before, and no other entry of the directory changes |
| MakeDir.InitDir | src/filesystem/fat.c:504-537 | the cluster begins with an entry of one dot and ten blanks and one of two dots and nine blanks, both with attribute 0x10, size 0 and their first clusters; all else is zero |
| MakeDir.MakeNowhere | src/filesystem/fat.c:622-634 | without a free cluster: the count becomes 0xFFFFFFFF, the new entry gives that number, and no tree is stored any more; which sectors are wiped |
| MakeDir.CreateDirByParentCluster | src/filesystem/fat.c:544-644 | one more kid, an empty directory in the first free cluster, and the count falls by one; or a full directory and nothing changed; where the run lands on something else, readers do not see one item more; without a free cluster no tree is left; the bytes of the new entry and of the new cluster |
| Removal.FreeChain | src/filesystem/fat.c:483-484 | releases exactly the chain |
| ReadingOn.StaleName | src/filesystem/fat.c:464-473 | read with the long-name entries of the deleted file before them, the entries of another name do not spell the deleted name |
| ReadingOn.ReadOn | src/filesystem/fat.c:444-496 | going on behind the file's cluster with its long-name entries still held, the loop takes another entry for the file exactly when the first one in use there is a short one |
| ReadingOn.NamesProtect | src/filesystem/fat.c:464-473 | it never does where all items have long names |
| Removal.DeletesMoreExample | src/filesystem/fat.c:444-496 | a directory of two clusters in which deleting a file takes another entry along |
| Removal.DeleteFileByDirCluster | src/filesystem/fat.c:435-497 | the kid goes, its chain is released, the count rises by its length; or the name is not there and nothing changes; and when exactly the loop goes on to delete another entry; the entries of the file begin with 0xE5 and no other byte of the directory changes |
| Removal.ClearDirByCluster | src/filesystem/fat.c:650-688 | ends on every directory tree and releases exactly the clusters of everything below; data area unchanged |
| Removal.DeleteDirByParentCluster | src/filesystem/fat.c:695-761 | the directory goes with everything below; exactly those clusters are released, and the count rises by their number; its entries begin with 0xE5 and no other byte of the directory above changes |
| Rechaining.GrowEmpty | src/filesystem/fat.c:827-840 | where `Guarded` holds: an empty file gets the first free clusters, or loses one of them when there is no room for all, or is refused when none is free |
| Rechaining.Rechain | src/filesystem/fat.c:818-843 | where `Guarded` holds: after growing or shrinking the file owns the front of its old chain or all of it and then the first free clusters; succeeds exactly when `Affordable`, and otherwise what the drive looks like |
| Rewriting.CeilRounds | src/filesystem/fat.c:818-823 | the number of clusters computed is the one that the size rounds up to |
| Rewriting.RoundsUnique | src/filesystem/fat.c:818-823 | the size determines the chain's length |
| Rewriting.AlignedInOne | src/filesystem/fat.c:862-873 | within one cluster the compiled write loop does what it is meant to do |
| Rewriting.FileReplaced | src/filesystem/fat.c:818-876 | new chain, new entry and new bytes together give the tree with that one file changed |
| Rewriting.RewriteFileByDirCluster | src/filesystem/fat.c:771-883 | the file reads as the data where the loop is in place; the rest of the tree stays; when it succeeds, and what is left when it does not, also on a full volume; of the directory, only bytes 20, 21, 26, 27 and 28 to 31 of the file's short entry change, to the first cluster and the size |
| Rewriting.EmptiedNoTree | src/filesystem/fat.c:842-848 | after rewriting a file that has bytes with none, the volume stores no tree at all |
| Rewriting.OldContents | src/filesystem/fat.c:947-969 | the old bytes are still in place before the new ones are written |
| Rewriting.AppendToFileByDirCluster | src/filesystem/fat.c:892-1017 | the file reads as its old bytes followed by the data where the loop is in place; the rest of the tree stays; when it succeeds, and what is left when it does not; the directory's bytes as above |
| Rewriting.IsFileInDir | src/filesystem/fat.c:1090-1133 | whether the directory has a kid of the name |
| Rewriting.FindFileDirEntry | src/filesystem/fat.c:1141-1185 | the entry describes that kid |
| Rewriting.ReadFile | src/filesystem/fat.c:1380-1395 | prints the file's bytes as the tree has them, and nothing of a directory |
| Views.AtIsFolder | src/filesystem/fat.c:1228-1313 | directories are found exactly where the view has one |
| Views.CreateView | src/filesystem/fat.c:335-428 | the new name leads to an empty file or directory, every other name to what it led to before |
| Views.DeleteView | src/filesystem/fat.c:435-497 | the name and everything below lead nowhere, all other names to what they led to |
| Views.WriteView | src/filesystem/fat.c:771-1017 | that file has the new bytes, no other file or directory changes |
| Views.CreateKeepsDirs | src/filesystem/fat.c:335-644 | every directory is reached by the same names and starts at the same cluster as before |
| Views.DeleteKeepsDirs | src/filesystem/fat.c:435-761 | the same for directories that are not at or below the deleted name; those are not reached any more |
| Leaks.CreatedNoLeaks | src/filesystem/fat.c:335-644 | if every cluster was owned or free, it still is |
| Leaks.RemovedNoLeaksIff | src/filesystem/fat.c:435-761 | the same, exactly when all that the entry owned is released |
| Leaks.WrittenNoLeaks | src/filesystem/fat.c:771-1017 | the same for a file that gives clusters back or gets some |
| Paths.FollowName | src/filesystem/fat.c:1247-1303 | one step of a path, with `.`, `..` by the disk's own entry, and names of directories |
| Paths.FindDirFirstCluster | src/filesystem/fat.c:1228-1313 | the cluster of the directory that the path means, or 0xFFFFFFFF exactly when it means none |
| Paths.PathsInBytes | src/filesystem/fat.c:1232-1303 | what `.`, `..`, `/` and a single name mean, in bytes |
| Paths.PathsJoined | src/filesystem/fat.c:1232-1303 | a slash in front starts at the root, one in between goes on from where the front led |
| Paths.ResolveIsNorm | src/filesystem/fat.c:1343-1352 | following `..` on the disk and removing it from the text lead to the same directory |
| Paths.TokensOfText | src/filesystem/fat.c:1354-1363 | the text written out is cut into the same names again |
| Paths.TextInBytes | src/filesystem/fat.c:1354-1363 | the text of a path: a slash before every name, or one slash |
| Paths.CombinedNorm | src/filesystem/fat.c:1331-1352 | the combined text, cut down, is the path of the directory that was found |
| Paths.CwdResolves | src/filesystem/fat.c:1319-1365 | resolving the working directory's text from the root gives the working directory |
| Paths.ChangeCurrentWorkingDir | src/filesystem/fat.c:1319-1365 | keeps text and cluster in agreement; a path that leads nowhere changes neither |
| Commands.ReadFileAt | src/filesystem/fat.c:1380-1395 | prints what the view has at that name, nothing for a directory; which answer it gives |
| Commands.CreateFileAt | src/filesystem/fat.c:1402-1418 | done exactly when the path means a directory, the name is new and the scan finds room; where the place is right, the view gains an empty file, nothing else changes, and the next operation can follow; where something else is there, readers do not see one item more; the bytes in the directory that the path names; if it is not done, the drive is as it was |
| Commands.DeleteFileAt | src/filesystem/fat.c:1425-1436 | the view loses the name and what is below, nothing else changes; the working directory stays exactly when it is not among that; clusters are lost exactly when something below the name owned some; and when exactly another entry is deleted too; the bytes in the directory that the path names; if it is not done, the drive is as it was |
| Commands.CreateDirAt | src/filesystem/fat.c:1443-1455 | the same with an empty directory; damaged exactly when all that holds but no cluster is free, and then no tree is left; the bytes of both directories; a refusal leaves the drive as it was |
| Commands.DeleteDirAt | src/filesystem/fat.c:1462-1473 | the view loses the directory and everything below, nothing else changes, no cluster is lost; the working directory stays exactly when it is not among that; the bytes in the directory that the path names; if it is not done, the drive is as it was |
| Commands.WriteToFile | src/filesystem/fat.c:1483-1498 | done exactly when the clusters suffice, and then the view has the data, or old bytes and data, at that name and nothing else changes; an empty file that cannot grow damages the volume exactly when a cluster is free; what a refusal leaves; the bytes of the file's entry |
| Runs.Serve | src/filesystem/fat.c:1319-1498 | one request, from one sound state to the next, with its effect on names and working directory; room for it is decided by the state before; what it does to the drive's directories byte by byte, and that requests which only look or are refused leave the drive as it was |
| Runs.Run | src/filesystem/fat.c:1319-1498 | any run of requests that their callers may make keeps the volume and the working directory sound at every step, and each request has its effect on the map of names, decided by the state in which it is made; no cluster is lost unless a directory with something below it that owns one is deleted as a file |
| Runs.RunElsewhere | src/filesystem/fat.c:1319-1498 | a name leads to the same thing before and after any part of a run that does not touch it |
| Runs.WrittenThenRead | src/filesystem/fat.c:1380-1498 | what a run wrote to a file is what it reads from it later |
| Heaps.Conservation | src/memorymanagement.c:14-95 | sizes and descriptors add up to the region |
| Heaps.AllFree | src/memorymanagement.c:74-95 | with everything free the heap is the single initial chunk |
| Heaps.LiveApart | src/memorymanagement.c:31-63 | live allocations lie in the region and share no byte |
| Heaps.TakenGood | src/memorymanagement.c:45-61 | splitting keeps the tiling and leaves no two free chunks side by side |
| Heaps.TakenLive | src/memorymanagement.c:31-63 | malloc adds one allocation, apart from all others, of exactly the request where the chunk has 17 bytes more, else of the chunk's size |
| Heaps.TakenExactly | src/memorymanagement.c:45-61 | what is handed out, what stays free right behind it, and how the free bytes go down by that and one descriptor |
| Heaps.GivenGood | src/memorymanagement.c:74-95 | merging keeps the tiling and leaves no two free chunks side by side |
| Heaps.GivenLive | src/memorymanagement.c:74-95 | free removes exactly that allocation |
| Heaps.TakenThenGiven | src/memorymanagement.c:31-95 | freeing what was just allocated restores the heap |
| Heaps.GivenWrittenIff | src/memorymanagement.c:90-94 | when the compiled free keeps the heap in order |
| Heaps.WrittenFreeExample | src/memorymanagement.c:90-94 | three chunks for which it does not |
| Heaps.LinkedUnique | src/memorymanagement.c:3-9 | memory determines the list of chunks |
| Heaps.Heap.constructor | src/memorymanagement.c:14-26 | one free chunk, or none when the region is too small |
| Heaps.Heap.Malloc | src/memorymanagement.c:31-63 | takes the first free chunk strictly larger than the request, 0 exactly when there is none; what is handed out is exactly the request if the chunk has at least 17 bytes more, with the rest free right behind it, and else the whole chunk; the free bytes go down by that |
| Heaps.Heap.Free | src/memorymanagement.c:74-95 | the list after both merges; in order exactly when the condition of GivenWrittenIff holds, or with the intended order; with the intended order exactly that allocation is gone |
| Heaps.Heap.FreeAll | src/memorymanagement.c:74-95 | giving back all allocations in any order ends in the single chunk of the beginning |
| Tasks.RoundRobin | src/multitasking.c:64-80 | any n switches in a row with n tasks choose each task once |
| Tasks.Machine.RunUntil | src/multitasking.c:64-80 | whatever the tasks do, each on its own stack, a task goes on with what it had when it stopped as soon as its turn has come, with n tasks at the n-th switch at the latest |
| Tasks.Machine.Launch | src/multitasking.c:11-80 | a task from its creation through any run of the others to its first instruction: it enters the callback with the selectors, flags and user stack built for it |
| Tasks.Machine.SwitchContext | src/multitask.asm:4-30 | what is pushed for the one task and popped for the other, word by word |
| Tasks.Machine.Schedule | src/multitasking.c:64-80 | the next task goes on with the registers, return address, stack pointer and stack it had when it stopped |
| Tasks.Machine.NewTaskSetup | src/multitask.asm:36-52 | loads the words on the stack into selectors, flags and instruction pointer, and into stack pointer and stack segment when it returns to user mode; clears the other registers |
| Tasks.Machine.AddTask | src/multitasking.c:53-59 | appends the task unless there are 256 |
| Tasks.Machine.CreateTask | src/multitasking.c:11-43 | builds the first stack and disturbs no other task's; where on the stack what lies, with selectors 0x08 and 0x10 or 0x1B and 0x23 |
| Tools.TableIsMirror | src/common/tools.c:43-43 | a negative remainder picks the digit of its absolute value; the digits are 0 to 9 and a to z |
| Tools.ItoaRoundTrip | src/common/tools.c:22-58 | parsing the text gives the value in base 10 and its absolute value in other bases, the smallest int included |
| Tools.NoLeadingZero | src/common/tools.c:39-45 | no leading zero unless the value is 0 |
| Tools.Itoa | src/common/tools.c:22-58 | writes that text and a terminator, and nothing else |

## Left out

- ATA ports, PCI, interrupt set-up, keyboard, screen, shell and system calls: hardware and plumbing.
- Reading the boot sectors: the partition's layout is a parameter with the properties of `Partitions.Mountable`; a drive has room for one cluster more than the scans reach, which holds because they stop at a quarter of the table's sectors.
- Short names and their checksum: opaque bytes of which only the first is constrained.
- `read_dir_by_cluster`, `tree`, `calloc` (which does not clear its memory), `is_file_exist` and `is_dir_exist`: nothing new to prove.
- Timestamps and the other bytes of a short entry: kept as they were in the slot.
- Removal.DeleteFileByDirCluster: when the loop takes another entry for the file (`again`), what it then does to that entry, its chain and the entries before it; and a directory in which the next name behind the file's cluster does not fit the buffers behind the file's own (`Removal.NamesFit`: together more than 19 long-name entries).
- Removal.DeleteDirByParentCluster: only for a directory that is there; otherwise the code works with a cluster number it never set (fat.c:699, 758), or reads a file's bytes as directory entries.
- Rewriting.RewriteFileByDirCluster: only for files, and not for an empty file that needs exactly one cluster more than are free, where the code uses cluster numbers that nobody has set (`Rechaining.Guarded`). It stops at the file, where the code reads on through the directory's later clusters and finds no other entry of that name.
- Rewriting.AppendToFileByDirCluster: the same.
- Rechaining.Rechain: the same, as `Guarded`.
- Rechaining.GrowEmpty: the same.
- Creation.CreateFileByDirCluster: only where the run stays inside the 16 entries that the code has read (`Creation.RunStays`); a run past them is written outside the buffer, and `Placement.ScanIff` says that readers then miss it. A run inside them is covered, right or wrong.
- MakeDir.CreateDirByParentCluster: the same.
- Commands.CreateFileAt: the same.
- Commands.CreateDirAt: the same.
- Commands.DeleteFileAt: as `Removal.DeleteFileByDirCluster`.
- Commands.DeleteDirAt: not for a file's name, whose bytes the code would read as directory entries.
- Commands.WriteToFile: as `Rewriting.RewriteFileByDirCluster`.
- Runs.Run: requests are carried out or left out as a guard decides that admits only what the operations ask of their callers (`Runs.Allowed`): a place that is right for a new entry, a free cluster for a directory, no deletion of the working directory or of more than was named, no write that damages the volume.
- Paths.ChangeCurrentWorkingDir: the combined path has to fit 512 bytes and 64 names; the buffers are not checked by the code. The working directory's text starts out as "/" although the code sets only its first byte.
- Allocation failures: `malloc` for a cluster list is a parameter (`heapOk`); in `find_cluster_chain`, in `find_dir_first_cluster` and for the long-name entries its result is not checked by the code, and the model takes it to succeed.
- The four highest bits of a table entry: the code overwrites them, where section "FAT Data Structure" of the FAT32 specification wants them kept.
- Tasks.Machine.Schedule: `old` is unset on the first call (multitasking.c:69-74); the model lets it point to a boot task that is never scheduled. Each call is one step; interrupts inside it are not modelled.
- User mode: what a task does there, and the entry into the kernel when it is interrupted, are part of `Tasks.Machine.Work`, which ends on the task's kernel stack.
- Concurrent use of the file system or of the heap from several tasks: the code has no locks.
