# A model of the SD card file system and the Ethernet buffers and protocols

The first part models the FAT16/FAT32 file system of the SD library: the block
reader of the card driver with its partial-read mode (`Sd2Card.dfy`), the
one-block write-back cache with its deferred mirror write, the table entries and
the cluster allocator (`SdVolume.dfy`), the file cursor and everything built on
it (`SdFile.dfy`, and `CacheFate.dfy` for what a write does to the cached block),
and directories searched, extended and changed by name
(`SdDirectory.dfy`). The layers below and beside them are values: block layout
(`Geometry.dfy`, `Mount.dfy`), cluster chains (`Chains.dfy`), tables and entries
in blocks (`Table.dfy`, `DirEntry.dfy`), a file's bytes (`FileBytes.dfy`), a
directory's slots (`Directory.dfy`) and 8.3 names (`Names.dfy`). `Frame.dfy`
says what an operation leaves alone on the whole volume, and `Session.dfy` puts
it all together: whole runs of operations on a file, with close and reopen.

Users of a volume do not see the card but the disk: the card overlaid by the
dirty cached block and its mirror copy still to be written
(`SdVolume.disk`). Every contract speaks about that disk, its table `Fat()` and
the ghost chain of a file; `SdVolume.Valid` ties them to the card and the cache.
Card operations may fail at any time; `faults` counts the failures, so that
"fails only if" can be said exactly.

The second part models the Ethernet library: the 2 KB windows of the W5100 chip
(`W5100.dfy`), UDP framing over them (`Udp.dfy`), the DNS request and response
(`Dns.dfy`, RFC 1035) and DHCP lease timing (`Dhcp.dfy`, section 4.4.5 of RFC
2131).

## Results that are not what one would expect

- Removing a file of size 0 that has clusters leaves these allocated, since
  `truncate` returns at once for an empty file
  (`libraries/SD/src/utility/SdFile.cpp:1081`). `Sessions.Reclaimed` gives the
  table afterwards exactly.
- `write` forgets the cached block without clearing its dirty mark
  (`libraries/SD/src/utility/SdFile.cpp:1181-1183`). No later flush of the volume
  succeeds when that block was dirty; the model calls such a volume wedged, and
  all other operations keep `Wedged` as it was. `CacheFate.InTheWay` is the
  exact condition, in terms of the cached block and the position before the
  write; `Sessions.WriteThenSync` states both directions, for every handle, and
  `Sessions.DangerExample` runs into it.
- `endPacket` after `beginPacket` without any `write` sends again what an earlier
  packet left unsent; `Udp.EthernetUDP.EndPacket` has the exact condition.
- The DHCP accounting is exact not for calls less than 2^32 ms apart but for less
  than 2^32 ms not yet charged (`Dhcp.DhcpClient.Charge`, `Dhcp.GapLosesTime`).

## Model

| member | source | states |
|---|---|---|
| Sessions.Run | libraries/SD/src/utility/SdFile.cpp:392-1224 | for every sequence of seek, read, write, truncate and close-and-reopen calls that succeed on one file, the bytes read are those of one abstract byte sequence with a position (`Outputs`), the file ends as that sequence (`After`), the directory stays sound, every other slot keeps its entry, chain and data blocks, and so does the whole volume: any family of chains that includes the file's and the directory's is one again with the file's new chain, and each other member has the bytes it had (`VolumeKept`) |
| Sessions.Step | libraries/SD/src/utility/SdFile.cpp:668-1224 | one operation of such a run: the new stream is `Perform` of the old one, only this slot's chain changes, and outside the directory and the file no table entry in use and no block of the volume changes (`Kept`) |
| Sessions.ReopenStep | libraries/SD/src/utility/SdFile.cpp:76-80 | closing a file and opening it again by name finds the same slot and gives back the same bytes at position 0 (none with `O_TRUNC`) |
| Sessions.SlotOpKeepsOthers | libraries/SD/src/utility/SdFile.cpp:35-59 | an operation on one slot leaves the entry, the chain and every data block of all other slots of the directory as they were |
| Sessions.OthersKeepBytes | libraries/SD/src/utility/SdVolume.cpp:253-293 | hence any other file of the directory, open or closed, has the bytes it had, because distinct clusters and regions share no block |
| Sessions.OtherHandleKept | libraries/SD/src/utility/SdFile.cpp:392-468 | a second open file of the directory is still correctly open afterwards, with the same bytes and position |
| Sessions.CloseStep | libraries/SD/src/utility/SdFile.cpp:76-80 | after a close the slot holds exactly the bytes the open file had, and the card holds it all |
| Sessions.WriteThenSync | libraries/SD/src/utility/SdFile.cpp:1132-1217 | after a successful write a `sync` succeeds (card faults aside) if and only if the volume was not wedged and the cached block not `InTheWay`: dirty, not flushed by the seek of an appending write, and one of the whole blocks stored before the table is first looked at; with `O_SYNC` a successful write was not in that case |
| CacheFate.TrackRound | libraries/SD/src/utility/SdFile.cpp:1147-1204 | through every round of a write, which block is cached and whether the dirty mark has lost its block |
| CacheFate.TrackEnds | libraries/SD/src/utility/SdFile.cpp:1178-1183 | at the end of a write the buffer is dirty without a block number exactly if the write was endangered at its beginning |
| CacheFate.SeekThenWrite | libraries/SD/src/utility/SdFile.cpp:1142-1145 | an appending write that first seeks is endangered exactly if the seek does not follow the chain and the write from there is endangered |
| Sessions.DangerExample | libraries/SD/src/utility/SdFile.cpp:1178-1183 | the danger shown as a run: any file whose first block is written in part and then, after a seek to 0, as a whole; all calls succeed (short of a card fault or a full volume) and the next `sync` fails |
| Sessions.NamedOnce | libraries/SD/src/utility/SdFile.cpp:428-440 | two slots a search could stop at for one name, both files or directories, are the same slot |
| Sessions.RemoveByName | libraries/SD/src/utility/SdFile.cpp:818-822 | removing by name succeeds only for a name that is held; the slot is deleted, the table becomes the old one with exactly its clusters freed (and stays the same for an empty file), every other chain of the volume keeps its clusters and bytes, and without card faults it fails only for the reasons `open` has |
| Sessions.CreateContiguous | libraries/SD/src/utility/SdFile.cpp:131-150 | a successful `createContiguous(size)` made a new file whose chain is exactly the clusters `size` needs, consecutive, with all other slots and all other chains of the volume kept; without card faults it fails only when the size is 0, `open` refuses, or no run of that many free clusters exists, and then the new entry is removed again and everything else is kept |
| Sessions.CreateAndFindRange | libraries/SD/src/utility/SdFile.cpp:93-150 | after a successful `createContiguous(size)`, `contiguousRange` succeeds (card faults aside), and its range has exactly ceil(size / cluster bytes) times the blocks of a cluster, inside the data area |
| Sessions.RmDirAt | libraries/SD/src/utility/SdFile.cpp:839-860 | removing an open subdirectory of a directory frees exactly its clusters, deletes its slot, keeps the parent sound with all its other slots, and keeps every other chain of the volume; it fails only on a card fault, for something that is not a subdirectory, or for one that is not empty |
| Frames.OperationKeepsVolume | libraries/SD/src/utility/SdVolume.cpp:31-97 | an operation that spares the entries and blocks of others leaves, of any family of chains of the volume that includes the directory's and the file's, a family again, with the new chains in their place, and the bytes of every other member as they were |
| Frames.ForeignBytes | libraries/SD/src/utility/SdVolume.cpp:253-293 | a chain in use that has no cluster in common with the operation's keeps its bytes, because distinct clusters, the tables and the root directory share no block |
| Frames.SlotOpSpares | libraries/SD/src/utility/SdFile.cpp:35-59 | writing, truncating, synchronising or removing a file spares the entries and blocks of everyone else on the volume |
| Frames.DirChangeSpares | libraries/SD/src/utility/SdFile.cpp:443-464 | so does making an entry, with a new cluster for the directory or without |
| Frames.SparedTrans | libraries/SD/src/utility/SdFile.cpp:35-59 | and so does any sequence of such operations, although the clusters they own change on the way |
| Directories.OpenByName | libraries/SD/src/utility/SdFile.cpp:392-468 | opening by name: finds the file exactly when the name is held, creates it only with `O_CREAT` and `O_WRITE` in the first unused slot or in a new zeroed cluster, keeps the directory sound, gives the stored bytes, keeps every other chain of the volume and its bytes, and without card faults fails exactly for the listed reasons (`Refused`) |
| Directories.OpenSpares | libraries/SD/src/utility/SdFile.cpp:392-468 | finding, truncating or creating a file by name spares the table entries in use and the blocks of everything outside the directory and the file |
| Directories.SearchDir | libraries/SD/src/utility/SdFile.cpp:404-441 | the search ends at the slot that holds the name, or shows that no slot does, remembering the first unused slot |
| Directories.OpenSlot | libraries/SD/src/utility/SdFile.cpp:510-546 | opening a found slot gives its stored bytes, or cuts them to nothing with `O_TRUNC`, and touches no other slot |
| Directories.CreateInSlot | libraries/SD/src/utility/SdFile.cpp:446-464 | a new entry goes into the first unused slot; the name is then found there, no other slot changes, and the table is the same |
| Directories.CreateInCluster | libraries/SD/src/utility/SdFile.cpp:449-456 | a full directory grows by one zeroed cluster whose first slot takes the new entry; the table changes only at the directory's own clusters and the new one, which was free; without card faults it fails only on a full volume |
| Directories.NewSubDirSound | libraries/SD/src/utility/SdFile.cpp:315-337 | a subdirectory with the two dot entries `makeDir` writes is a sound directory, although these name its own and its parent's first cluster |
| Directories.RmDir | libraries/SD/src/utility/SdFile.cpp:839-860 | a subdirectory is removed, its clusters freed and its entry deleted, if and only if no file or subdirectory can be found in it (short of card faults) |
| Directories.CheckEmpty | libraries/SD/src/utility/SdFile.cpp:845-856 | the scan decides exactly whether a file or subdirectory other than the dot entries is visible |
| Directory.FileOpKeepsDir | libraries/SD/src/utility/SdFile.cpp:392-468 | an operation on the file of one slot keeps names unique, free slots last, and every live closed slot backed by its own well-formed chain |
| Directory.CreateKeepsDir | libraries/SD/src/utility/SdFile.cpp:443-464 | writing a new entry into the first unused slot keeps the directory sound, and the name is then found there |
| Directory.GrowKeepsDir | libraries/SD/src/utility/SdFile.cpp:48-59 | adding a zeroed cluster to a directory without free slots keeps it sound; the new slots are free |
| Directory.NamesKept | libraries/SD/src/utility/SdFile.cpp:782-798 | 8.3 names stay unique and every slot behind a free one stays free when one live entry changes or is deleted |
| Directory.NamesAdded | libraries/SD/src/utility/SdFile.cpp:443-464 | the same for a name that was missing, put into the first unused slot |
| Directory.ChainsAreFamily | libraries/SD/src/utility/SdVolume.cpp:31-97 | in a sound directory all chains, the directory's own included, are well-formed, acyclic, end-marked and pairwise disjoint |
| Directory.OtherDataKept | libraries/SD/src/utility/SdFile.cpp:35-59 | an operation on one slot leaves the stored bytes of every other closed file alone |
| Directory.ChainDataKept | libraries/SD/src/utility/SdFile.cpp:443-464 | changes confined to the directory's own blocks leave every file's bytes alone |
| Directory.GrownIsSlotOp | libraries/SD/src/utility/SdFile.cpp:1132-1224 | growing a file changes only its clusters, formerly free ones and its entry's place fields |
| Directory.CutIsSlotOp | libraries/SD/src/utility/SdFile.cpp:1073-1114 | truncating a file changes only its own clusters and its entry's place fields |
| Directory.RemovedIsSlotOp | libraries/SD/src/utility/SdFile.cpp:782-798 | removing a file changes only its own clusters and deletes its entry |
| Files.SdFile.Read | libraries/SD/src/utility/SdFile.cpp:668-719 | `read` delivers exactly the bytes of the file at the position, as many as asked for or left, and moves behind them, across blocks and clusters and through the cached and the direct path; -1 only when closed, write-only or on a card fault |
| Files.SdFile.ReadRound | libraries/SD/src/utility/SdFile.cpp:680-716 | one round delivers the bytes of one block and keeps the cursor invariant |
| Files.SdFile.BlockForRead | libraries/SD/src/utility/SdFile.cpp:683-697 | the cursor steps to the chain element that holds the position, and the block computed is the file's block there |
| Files.SdFile.ReadSlice | libraries/SD/src/utility/SdFile.cpp:703-714 | the direct path and the cached path deliver the same slice of the disk as seen |
| Files.SdFile.ReadDirCache | libraries/SD/src/utility/SdFile.cpp:751-768 | the next directory entry is in the cache and is that slice of the directory's bytes |
| Files.SdFile.Write | libraries/SD/src/utility/SdFile.cpp:1132-1224 | a successful `write` makes the file the old one with the data laid over it at the position (or the end), takes only free clusters and no more than the size needs, touches no other block, and with `O_SYNC` leaves the card equal to the disk as seen; it fails only for a closed or read-only file, a card fault or a full volume |
| Files.SdFile.WriteLoop | libraries/SD/src/utility/SdFile.cpp:1147-1204 | the loop lays the data over the file piece by piece |
| Files.SdFile.BlockForWrite | libraries/SD/src/utility/SdFile.cpp:1148-1177 | the cluster of the position is found or taken from the free ones without changing any byte written so far |
| Files.SdFile.StoreSlice | libraries/SD/src/utility/SdFile.cpp:1178-1201 | storing past the cache, into a fresh buffer or into the block as it is leaves the other bytes below the length undisturbed |
| Files.SdFile.AddCluster | libraries/SD/src/utility/SdFile.cpp:35-44 | the chain grows by one formerly free cluster and the entry is marked when it was the first; without card faults it fails only on a full volume |
| Files.SdFile.AddDirCluster | libraries/SD/src/utility/SdFile.cpp:48-59 | the directory's bytes are the old ones followed by one cluster of zeros, whose first block is cached |
| Files.SdFile.SeekSet | libraries/SD/src/utility/SdFile.cpp:924-954 | a seek succeeds up to the size (card faults aside), and however it walks, the cursor ends at the chain element that holds byte `pos - 1`, the one a walk from the first cluster reaches; the cache is the same unless a link was followed |
| Files.SdFile.Advance | libraries/SD/src/utility/SdFile.cpp:950-952 | following n links moves n elements along the chain |
| Files.SdFile.Truncate | libraries/SD/src/utility/SdFile.cpp:1073-1114 | truncation keeps exactly the first bytes and, of a non-empty file, exactly the clusters those need, frees exactly the rest, flushes everything, and leaves the position at the smaller of itself and the length |
| Files.SdFile.FreeTail | libraries/SD/src/utility/SdFile.cpp:1089-1104 | exactly the clusters behind the new last one are freed and that one is marked as the end |
| Files.CutKeepsFile | libraries/SD/src/utility/SdFile.cpp:1089-1108 | the cut table chains the first clusters, changes nobody else's entries and keeps the first bytes |
| Files.CutConserves | libraries/SD/src/utility/SdFile.cpp:1089-1104 | cutting raises the number of free clusters by exactly the number cut off |
| Files.SdFile.Sync | libraries/SD/src/utility/SdFile.cpp:965-989 | after `sync` the card equals the disk as seen and the entry gives first cluster and size; no byte of the file changes |
| Files.SdFile.Close | libraries/SD/src/utility/SdFile.cpp:76-80 | what the card holds under the directory entry after a close is the file as it was |
| Files.SdFile.OpenCachedEntry | libraries/SD/src/utility/SdFile.cpp:510-546 | opening the entry of a stored file gives that file's bytes at position 0; without card faults it fails exactly when the attributes and flags do not go together |
| Files.SdFile.OpenRoot | libraries/SD/src/utility/SdFile.cpp:558-586 | the root directory opens with its size and chain |
| Files.SdFile.Remove | libraries/SD/src/utility/SdFile.cpp:782-798 | the entry is deleted and the chain freed; a file of size 0 keeps its clusters allocated |
| Files.SdFile.ContiguousRange | libraries/SD/src/utility/SdFile.cpp:93-113 | on a well-formed chain, short of card faults, it succeeds exactly when the chain is non-empty and consecutive, and the range is its blocks, inside the data area |
| Files.SdFile.Preallocate | libraries/SD/src/utility/SdFile.cpp:137-146 | the clusters taken are one run, the lowest there is |
| Files.NeededIsLeast | libraries/SD/src/utility/SdFile.cpp:137-137 | the number of clusters computed holds the size, and one less does not |
| Files.NeededIsQuotient | libraries/SD/src/utility/SdFile.cpp:137-137 | it is the size divided by the bytes of a cluster, rounded up |
| Files.AllocKeepsFile | libraries/SD/src/utility/SdFile.cpp:35-44 | after one free cluster was linked behind it, the chain is well-formed and extended by that cluster |
| Files.ConsecutiveBlocks | libraries/SD/src/utility/SdFile.cpp:101-113 | consecutive clusters cover consecutive blocks of the data area |
| Files.ZeroedKeepsFile | libraries/SD/src/utility/SdFile.cpp:48-59 | a directory whose new last cluster was zeroed has that many zero bytes more |
| Files.WriteSplit | libraries/SD/src/utility/SdFile.cpp:1148-1169 | when a position starts a cluster, which chain index it has, and when it is past the chain |
| Files.CursorCluster | libraries/SD/src/utility/SdFile.cpp:686-697 | the cluster of a byte is that of the byte before it, or the next one when it starts a cluster |
| FileBytes.WriteInBlock | libraries/SD/src/utility/SdFile.cpp:1178-1203 | changing a stretch of one block splices it into the file's bytes |
| FileBytes.FileBlocksDistinct | libraries/SD/src/utility/SdFat.h:523-526 | different blocks of a file lie in different blocks of the card |
| FileBytes.ContentsInBlock | libraries/SD/src/utility/SdFile.cpp:683-714 | a stretch of the file within one block is that slice of it |
| FileBytes.ContentsExtended | libraries/SD/src/utility/SdFile.cpp:35-44 | further clusters do not change the bytes already there |
| DirEntry.WithPlace | libraries/SD/src/utility/SdFile.cpp:972-984 | the entry reads back the first cluster and size stored, and keeps name and attributes |
| DirEntry.PlaceFields | libraries/SD/src/utility/SdFile.cpp:972-984 | of the entry's twelve fields only the high and the low word of the first cluster and, for files, the size change, to the numbers given |
| DirEntry.FieldsRead | libraries/SD/src/utility/FatStructs.h:321-369 | in an entry that is its packed fields one behind the other, name, attributes, first cluster and size are read from their fields |
| DirEntry.NewFields | libraries/SD/src/utility/SdFile.cpp:456-468 | a new entry has the name, no attributes, clusters or size, and the first of January 2000, one o'clock, in its dates and times |
| DirEntry.AttributeBits | libraries/SD/src/utility/FatStructs.h:382-413 | read-only, file and subdirectory are told from the attribute byte's flags, whatever the others are |
| Volume.SdVolume.CacheFlush | libraries/SD/src/utility/SdVolume.cpp:99-114 | a flush never changes the disk as seen; when it succeeds the card equals it, and when it fails between its two writes the mirror write stays pending |
| Volume.SdVolume.MirrorsOnCard | libraries/SD/src/utility/SdVolume.cpp:99-114 | the two tables on the card differ at most in the block cached dirty with its mirror pending |
| Volume.SdVolume.CacheRawBlock | libraries/SD/src/utility/SdVolume.cpp:116-125 | bringing a block into the cache never changes the disk as seen, and the buffer then equals that block |
| Volume.SdVolume.CacheZeroBlock | libraries/SD/src/utility/SdVolume.cpp:127-137 | exactly one block of the disk as seen becomes zero |
| Volume.SdVolume.FatGet | libraries/SD/src/utility/SdVolume.cpp:151-164 | the value returned is the table's entry on the disk as seen: with the table's blocks joined, the 16-bit number at byte 2c, or on FAT32 the lower 28 bits of the 32-bit number at byte 4c; out of range fails |
| Volume.SdVolume.FatPut | libraries/SD/src/utility/SdVolume.cpp:167-192 | exactly one entry changes, in both tables as seen, and nothing outside them: in the joined bytes of the table exactly its 2 or 4 bytes, to the value's, and the second copy has the same bytes; entries below 2 are refused |
| TableBlocks.TableIsBytes | libraries/SD/src/utility/SdVolume.cpp:151-164 | the table all other contracts speak of is the one the joined bytes of its blocks hold, entry after entry |
| Volume.SdVolume.SetEntry | libraries/SD/src/utility/SdVolume.cpp:179-191 | changing the cached entry and scheduling its mirror keeps both tables equal as seen |
| Volume.SdVolume.AllocContiguous | libraries/SD/src/utility/SdVolume.cpp:31-97 | the clusters given were a free run and are linked and end-marked; from the hint it is the lowest such run, failure without card faults means no such run exists, and for one cluster after a given one that none is free |
| Volume.SdVolume.FindRun | libraries/SD/src/utility/SdVolume.cpp:46-73 | the scan with wrap-around looks at every entry once and finds the next run or shows that there is none |
| Volume.SdVolume.LinkRun | libraries/SD/src/utility/SdVolume.cpp:75-92 | linking backwards makes exactly the chain of the run, behind the given tail, and never frees a used entry |
| Volume.SdVolume.FreeChain | libraries/SD/src/utility/SdVolume.cpp:195-210 | terminates on every table content; without card faults it succeeds exactly on the head of a well-formed chain, and then has freed exactly that chain |
| Volume.SdVolume.ChainSize | libraries/SD/src/utility/SdVolume.cpp:140-148 | the size returned is that of the chain, modulo 2^32 |
| Volume.SdVolume.ReadData | libraries/SD/src/utility/SdFile.cpp:703-706 | reading past the cache agrees with the disk as seen for every block not cached and outside the tables |
| Volume.SdVolume.ForgetCached | libraries/SD/src/utility/SdFile.cpp:1178-1183 | dropping the cached block keeps its dirty mark: a volume whose dirty block was dropped is wedged |
| Volume.EntryStored | libraries/SD/src/utility/SdVolume.cpp:179-191 | storing an entry in the cached block keeps mirror agreement, the hint, and everything outside the tables |
| Volume.HintAdvances | libraries/SD/src/utility/SdVolume.cpp:93-96 | after a single cluster was taken by first fit everything below the new hint is in use |
| Volume.SearchFailed | libraries/SD/src/utility/SdVolume.cpp:54-61 | a scan that fails from the hint shows that no run exists anywhere |
| Chains.FirstFit | libraries/SD/src/utility/SdVolume.cpp:31-73 | from a start below which nothing is free the run found is the lowest of all |
| Chains.FirstFitComplete | libraries/SD/src/utility/SdVolume.cpp:31-73 | and the search fails only when no run exists |
| Chains.SingleFitComplete | libraries/SD/src/utility/SdVolume.cpp:31-73 | a search for one cluster fails, wherever it starts, only when no cluster is free |
| Chains.SearchSkips | libraries/SD/src/utility/SdVolume.cpp:62-68 | meeting a used cluster rules out every run that contains it |
| Chains.SearchFinds | libraries/SD/src/utility/SdVolume.cpp:68-72 | the run reported is free and no run lies before it |
| Chains.LinkExtends | libraries/SD/src/utility/SdVolume.cpp:75-92 | linking a free run behind a chain gives the chain followed by the run |
| Chains.CutChain | libraries/SD/src/utility/SdFile.cpp:1089-1104 | freeing a suffix and ending at its predecessor leaves exactly the prefix as a chain |
| Chains.FreedConserves | libraries/SD/src/utility/SdVolume.cpp:195-210 | freeing a chain adds exactly its length to the free clusters |
| Chains.ChainsEqual | libraries/SD/src/utility/SdVolume.cpp:195-210 | a table has at most one chain from a given first cluster |
| Chains.WalkDerailed | libraries/SD/src/utility/SdVolume.cpp:195-210 | a walk that meets a free or already freed cluster, or leaves the table, was not along a chain |
| Chains.WalkFollowsChain | libraries/SD/src/utility/SdVolume.cpp:195-210 | the walk from a chain's head meets exactly its clusters in order |
| Chains.FreeingLowersUse | libraries/SD/src/utility/SdVolume.cpp:195-210 | each freed cluster lowers the number of used entries, the measure of termination |
| Chains.FamilyPreserved | libraries/SD/src/utility/SdVolume.cpp:31-97 | when the entries of clusters in use outside some chains stay and none of these clusters is taken, every other chain survives, and with the new chains in place of the old ones the family is pairwise disjoint again |
| TableBlocks.StoreEntry | libraries/SD/src/utility/SdVolume.cpp:167-192 | storing an entry in its block changes that entry of the table and nothing outside the tables |
| TableBlocks.StoredElsewhere | libraries/SD/src/utility/SdVolume.cpp:179-186 | the other entries of the block are not disturbed |
| TableBlocks.OverlayTable | libraries/SD/src/utility/SdVolume.cpp:187-191 | a dirty table block with its pending mirror shows in both tables of the disk as seen |
| TableBlocks.StoreKeepsMirror | libraries/SD/src/utility/SdVolume.cpp:187-191 | storing a block in both tables keeps them equal |
| Geometry.SplitIsDivision | libraries/SD/src/utility/SdFat.h:521-524 | the recursive split of a block number into cluster and block of cluster is division by the cluster size |
| Geometry.ClustersDisjoint | libraries/SD/src/utility/SdFat.h:523-524 | distinct clusters share no block |
| Geometry.RegionsDisjoint | libraries/SD/src/utility/SdVolume.cpp:264-293 | tables, root directory and data area share no block and lie on the card |
| Geometry.EndMarks | libraries/SD/src/utility/SdFat.h:538-540 | a table value ends a chain exactly if all its bits but the lowest three are set |
| Mount.Init | libraries/SD/src/utility/SdVolume.cpp:227-294 | for every boot block given as its packed fields, initialising succeeds exactly when the fields are accepted, and of a well-formed volume gives the layout they mean (`Means`): the regions in their order and sizes, as many clusters as fit, FAT32 from 65525 clusters on, FAT12 exactly below 4085, with disjoint regions on the card; of any accepted one, fitting or not, what the 32-bit arithmetic comes to (`InWords`) |
| Mount.BootFields | libraries/SD/src/utility/FatStructs.h:128-239 | the library's view of a boot block that is its packed fields one behind the other finds each in its place |
| Mount.PartitionFields | libraries/SD/src/utility/FatStructs.h:43-117 | so does its view of the four partition table entries |
| Mount.PartitionFound | libraries/SD/src/utility/SdVolume.cpp:233-245 | a partition written into the table is found at its first block if it is usable, and entering it does not change what is found for the others |
| Mount.ClusterShift | libraries/SD/src/utility/SdVolume.cpp:259-264 | the shift loop succeeds exactly for 1, 2, 4 .. 128, and gives 0, 1, 2 .. 7 for them |
| Mount.ReadLayout | libraries/SD/src/utility/SdVolume.cpp:246-294 | which boot blocks are accepted; for each of them where tables and data begin modulo 2^32, how many whole clusters are left and which type follows; and for a volume that fits 32 bits that the layout is the one meant, without wrap-around |
| Mount.LayoutIsValid | libraries/SD/src/utility/SdVolume.cpp:264-293 | the layout of a well-formed volume has an entry for every cluster, cluster numbers below the end marks, and disjoint regions on the card |
| SdCard.Sd2Card.ReadData | libraries/SD/src/utility/Sd2Card.cpp:382-439 | for every sequence of calls, a successful call returns exactly that slice of the block, and continuing the running transfer issues no new command |
| SdCard.Sd2Card.TakeSlice | libraries/SD/src/utility/Sd2Card.cpp:409-437 | skipping and clocking in takes exactly the bytes of the slice from the packet |
| SdCard.Sd2Card.ReadEnd | libraries/SD/src/utility/Sd2Card.cpp:451-470 | ending a transfer clocks out the rest of the 514 bytes |
| SdCard.Sd2Card.PartialBlockRead | libraries/SD/src/utility/Sd2Card.cpp:354-357 | switching the mode first ends the running transfer |
| SdCard.Sd2Card.CardCommand | libraries/SD/src/utility/Sd2Card.cpp:111-142 | a command first ends the running transfer |
| SdCard.Sd2Card.WriteBlock | libraries/SD/src/utility/Sd2Card.cpp:581-613 | block 0 is refused; a write that succeeds changes exactly its block |
| Names.Make83Name | libraries/SD/src/utility/SdFile.cpp:247-278 | accepts exactly the 8.3 names and then yields base and extension, padded with blanks, letters in upper case and every other character as it is; no lower-case letter is left |
| Names.CaseIgnored | libraries/SD/src/utility/SdFile.cpp:271-273 | names that differ in the case of letters only are accepted or not together and give the same 11 bytes |
| Names.LegalAre | libraries/SD/src/utility/SdFile.cpp:260-271 | the characters allowed, listed: letters, digits and 17 others |
| Names.DirName | libraries/SD/src/utility/SdFile.cpp:180-188 | prints the name field without spaces and with its dot, ended by a zero |
| Names.PrintedPacked | libraries/SD/src/utility/SdFile.cpp:180-188 | printing a packed name gives the name without a trailing dot, letters in upper case and every other character as it is, in at most 12 characters |
| Names.RoundTrip | libraries/SD/src/utility/SdFile.cpp:180-278 | the printed name is an 8.3 name and packs to the same 11 bytes |
| W5100.Socket.SendDataProcessingOffset | libraries/Ethernet/src/utility/w5100.cpp:81-105 | the write in one or two pieces is a write indexed modulo 2048 inside the socket's window, and touches nothing else |
| W5100.Socket.ReadData | libraries/Ethernet/src/utility/w5100.cpp:120-140 | the read in one or two pieces is a read indexed modulo 2048 |
| W5100.Socket.Recv | libraries/Ethernet/src/utility/socket.cpp:175-207 | `recv` takes the first bytes received, as many as asked for or there, and leaves the rest |
| W5100.Socket.BufferData | libraries/Ethernet/src/utility/socket.cpp:405-420 | as many bytes as the chip reports free are put at the given offset behind the write pointer |
| W5100.PutTwice | libraries/Ethernet/src/utility/w5100.cpp:81-105 | putting two pieces one behind the other is putting their concatenation, as long as the ring holds them |
| W5100.GetPut | libraries/Ethernet/src/utility/w5100.cpp:81-140 | what was put is what is got |
| W5100.PutBehind | libraries/Ethernet/src/utility/w5100.cpp:81-140 | putting behind what is there leaves that and appends |
| W5100.PointerWraps | libraries/Ethernet/src/utility/w5100.cpp:81-118 | 16-bit wrap-around of the pointers does not matter |
| W5100.WindowsApart | libraries/Ethernet/src/utility/w5100.cpp:43-47 | the windows of all sockets lie in the chip's memory and are pairwise disjoint |
| W5100.WindowOf | libraries/Ethernet/src/utility/w5100.cpp:22-47 | each byte from 0x4000 to 0x5FFF is in the send window, and each from 0x6000 to 0x7FFF in the receive window, of exactly the socket its 2 KB belong to |
| W5100.OtherWindow | libraries/Ethernet/src/utility/w5100.cpp:47-50 | windows that do not overlap do not see each other's writes |
| Udp.EthernetUDP.Write | libraries/Ethernet/src/EthernetUdp.cpp:111-116 | the packet so far is extended by the bytes accepted, laid down behind it in the send window |
| Udp.EthernetUDP.EndPacket | libraries/Ethernet/src/EthernetUdp.cpp:101-104 | a packet that fits the window goes out exactly as written, if and only if something was written or nothing had been left unsent before; of a longer one as many bytes go out, but every one 2048 places on is the same again |
| Udp.SendPieces | libraries/Ethernet/src/EthernetUdp.cpp:95-116 | any sequence of writes within the free size sends their concatenation |
| Udp.EthernetUDP.ParsePacket | libraries/Ethernet/src/EthernetUdp.cpp:118-150 | skips to the next datagram and yields its size, address and port; the unread bytes are then its payload and whole frames |
| Udp.EthernetUDP.ReadByte | libraries/Ethernet/src/EthernetUdp.cpp:152-164 | delivers the next byte of the current payload, or -1 at its end |
| Udp.EthernetUDP.ReadBuffer | libraries/Ethernet/src/EthernetUdp.cpp:166-198 | delivers the next bytes of the current payload, never beyond it |
| Udp.ReceiveAll | libraries/Ethernet/src/EthernetUdp.cpp:118-198 | what portions of any sizes deliver is a prefix of the payload, all of it when nothing remains |
| Udp.FramesAppend | libraries/Ethernet/src/EthernetUdp.cpp:118-150 | a datagram that arrives is one more whole frame behind the others |
| Dns.BuildRequest | libraries/Ethernet/src/Dns.cpp:146-232 | the request written is the header, the name and type A class IN, for labels of 1 to 63 bytes |
| Dns.PartsOfName | libraries/Ethernet/src/Dns.cpp:196-217 | the parts a name is split into are those between its dots |
| Dns.DecodeEncoded | libraries/Ethernet/src/Dns.cpp:196-222 | decoding an encoded name gives its labels back and ends exactly behind it |
| Dns.RequestDecodes | libraries/Ethernet/src/Dns.cpp:146-232 | a receiver decodes the question to exactly the non-empty labels of the host name, behind a header with the request's number, only recursion desired set and one question, and before type A and class IN, all in network byte order |
| Dns.QuestionRepeated | libraries/Ethernet/src/Dns.cpp:196-229 | the question of the request is the one skipped in the response |
| Dns.SkipQuestions | libraries/Ethernet/src/Dns.cpp:284-311 | the skip loop ends exactly behind the questions |
| Dns.SkipRecordName | libraries/Ethernet/src/Dns.cpp:320-353 | a record's name is skipped exactly, whether it ends in the root or in a pointer |
| Dns.ReadAnswers | libraries/Ethernet/src/Dns.cpp:318-404 | from well-formed answers the first address record is taken, -9 when its size is not 4, -10 when there is none |
| Dns.FirstAnswerIs | libraries/Ethernet/src/Dns.cpp:318-404 | the answer is that of the first A/IN record, and there is none exactly when no such record exists |
| Dns.ProcessResponse | libraries/Ethernet/src/Dns.cpp:249-404 | every datagram not from the server, too short, for another request, in error or without answers gets its code: a matching one -4 if it is no response, -5 if and only if it is truncated or has a response code, whatever its other flags, -6 without answers; from a well-formed response the first address is returned |
| Dns.FlagsWord | libraries/Ethernet/src/Dns.cpp:274-282 | of a flags word composed of its fields, the bits looked at are those for response, truncation and response code |
| Dhcp.DhcpClient.RequestLease | libraries/Ethernet/src/Dhcp.cpp:38-128 | for every run of events the machine ends in `EndState`, the result is 1 exactly when that is LEASED, and then T2 is not zero and the timers are T1 and T2 |
| Dhcp.LeaseNeedsAck | libraries/Ethernet/src/Dhcp.cpp:58-116 | a run ends in LEASED only by an ACK before the time is over, and from START or DISCOVER only after an OFFER |
| Dhcp.DhcpClient.Round | libraries/Ethernet/src/Dhcp.cpp:58-116 | each round moves the machine as the protocol's table says and takes over the times a message gives |
| Dhcp.DhcpClient.Charge | libraries/Ethernet/src/Dhcp.cpp:394-419 | the seconds charged are all whole seconds passed if and only if less than 2^32 ms were uncharged; then no timer exceeds the time left; each timer goes down by exactly the seconds charged, or to 0 when less than twice as many are left |
| Dhcp.DhcpClient.CheckLease | libraries/Ethernet/src/Dhcp.cpp:394-435 | a leased client does nothing but count down if and only if both timers have at least twice the seconds passed left; otherwise it renews from the rerequest state, or rebinds from the start state, with exactly the result and state that request ends in; a renewal that succeeds is not followed by a rebind |
| Dhcp.GapLosesTime | libraries/Ethernet/src/Dhcp.cpp:394-404 | two calls of the accounting, at 999 ms and 2^32 - 1 ms later, though less than 2^32 ms apart, charge less than the seconds that passed |

## Left out

- Card reads that fail leave the buffer alone, because every failing path of `readData` ends before the first data byte; write errors may leave anything in their block, and only there.
- The volume is a constant of a file handle, and the layout one of the volume: initialising a volume again with another card, with the search hint left as it was, is not modelled.
- Preconditions of the format: a well-formed boot block (`Geometry.Layout.Valid`, `Mount.WellFormed`), directory sizes below 2^32 and, on opening a name, that the file is not already open through another handle.
- Several handles on one file, and copies of a handle.
- Volume.SdVolume.ChainSize: cyclic chains, on which it does not end, are excluded.
- Files.SdFile.Read: counts above 32767, which the 16-bit result cannot give.
- Files.SdFile.Write: the file may not grow to 2^32 bytes; after a write that fails midway nothing is said about the file.
- Files.SdFile.AddDirCluster: the cursor of the directory is good again only after the next rewind, as in the source.
- SdCard.Sd2Card.ReadData: calls with offset and count beyond the block are refused before the transfer; the sum is taken without 16-bit wrap-around, and the chip select line is not modelled.
- Dates and times: the callback, `timestamp`, and the write date that a callback would make `write` update. New entries have the default date and time.
- `makeDir`, opening by index, `rmRfStar`, `ls`, the print functions and the PROGMEM writers; the `SD.cpp` and `File.cpp` wrappers, whose path walk adds little to opening by name.
- Names.Make83Name: the check for illegal characters is taken as compiled in, as it is on AVR and ARM.
- FAT12, erasing, card initialisation, and all busy and timeout loops of the card driver.
- Integer widths: cluster and block numbers are in range by the layout; shifts and masks by powers of two are written as division and remainder.
- Clock readings, the network and the card's answers are parameters or arbitrary values.
- The W5100 chip is taken to report TX_WR and its free size unchanged until SEND, as the comment in `libraries/Ethernet/src/utility/w5100.h` describes; busy loops on its registers are left out.
- `EthernetUDP` sockets are already open; `begin`, `stop` and multicast are not modelled.
- Dns.ProcessResponse: waiting for a datagram and truncated or malformed responses, on which the skip loops may not end; the 16-bit result type, which makes negative codes come back as large numbers where `int` is wider.
- Dns.BuildRequest: labels longer than 63 bytes, and a chip without room for the whole request, which the source does not check either.
- `inet_aton`, `getHostByName` and the choice of the request number.
- Dhcp.DhcpClient.RequestLease: building and parsing messages, transaction numbers; what a message says is a parameter, and so is the round in which the time is over.
- Recovery of DHCP after a failed renewal, and T1 and T2 kept from an earlier lease.
- Sensors, WiFi, the TCP client and server: thin wrappers or hardware timing that would only add easy members.
