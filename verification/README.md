# Partition tables that keep their disks in order

This project models the partition-table editors of mac-fdisk and proves what
they do to a disk.  There are two editors.

* **The Apple partition map** (`partition_map.c`, `convert.c`).  A map is a
  block allocator on two doubly linked lists over the same entries: disk order,
  by partition number, and base order, by first block.  `PartitionMap.dfy` and
  `Entries.dfy` model the header and the entries as heap objects; every
  operation keeps both lists well formed and is proved equal to a function of
  `MapModel.dfy` on two sequences of entries.  `Geometry.dfy`, `Views.dfy` and
  `Allocation.dfy` say what those functions do to the extents of the disk,
  `MapTheorems.dfy`, `UndoCreate.dfy` and `MapResize.dfy` draw the conclusions,
  `Requests.dfy` says which requests are carried out and what each command does,
  and `Sessions.dfy` carries them over every run of commands.  `MapFiles.dfy`
  writes a map and opens it again, `OpenedMaps.dfy` runs commands on a map that
  was opened, `Footprints.dfy` says which partitions writing spares, with a run
  after which it destroys one, and `LostMaps.dfy` is a run that loses the map's
  own entry.  `Convert.dfy` swaps the bytes of the blocks, `ByteFiles.dfy` says
  what the bytes that are written mean, `ByteOrder.dfy` which value every field
  is read with, and `DeviceSize.dfy` measures the device.
* **The DOS partition table** (`fdisk.c`).  `Chs.dfy` is the address arithmetic
  modulo 1024 cylinders, `ExtendedChain.dfy` the chain of extended boot
  records, `ChainFiles.dfy` the chain on a disk, `MadeChains.dfy` what is
  special about chains the editor made itself, and `GapSearch.dfy` the dialogue
  that finds the sectors of a new partition; what it finds is defined in
  `GapModel.dfy` and put in terms of sectors in `GapAnswers.dfy`.  `MbrModel.dfy`
  and `MbrEditor.dfy` put them together into an editor whose partitions never
  overlap, and `Cylinders.dfy` says what asking for cylinders gives.
  `MbrFiles.dfy` says when tables survive saving and starting again, and
  `OpenedTables.dfy` runs commands on tables made or read from a disk.
  `ToggledLinks.dfy` with `LostPartitions.dfy`, and `StrayEntries.dfy`, are runs
  after which the tables do not come back, and `LinkSectors.dfy` says when a boot
  record is put on top of a partition.  `ListTypes.dfy` is the four-column
  listing.

What the code needs is said where it is needed: a create request has a positive
length and its end fits 32 bits; block zero lists at most 61 drivers; allocation
and disk access succeed; a DOS disk has 1 to 63 sectors, 1 to 256 heads, at
least one cylinder, and room below 2^32 for one round of 1024 cylinders.  The
safety of the DOS editor starts from an empty disk or from one that is `Fit`: at
most one primary entry is extended, and its start is not 0; every boot record of
the chain can be read, lies on the disk and not at sector 0, and holds no second
pointer in place of its partition; and all partitions lie on the disk, apart,
and not before their addresses, which is so for every record the editor writes
(`WrittenAddress`).  These are exactly the disks that open to safe tables
(`FitIff`).  A boot record may well hold a second partition where its pointer
would be; what then goes wrong is said below.

Results that a reader of the code might not expect:

* Creating a partition and deleting it again restores the map exactly when the
  piece in question did not touch another free entry (`UndoCreateIff`); on a
  coalesced map it always does.
* The capacity of a map is taken from its own entry once and never refreshed,
  so a resize that passes its checks can lose the entry for the map itself
  (`ResizeIff` says exactly when).  Three commands on a new map of 100 blocks do
  it: grow the map entry to 9 blocks, use up the rest of the disk, shrink the
  map entry to 5 (`SessionLosesMap`; `LoseMap` is the editor doing so).
* For the same reason writing a map can destroy a partition: shrink the entry of
  a new map of 200 blocks to 2 blocks, create a partition at block 3, and the
  third entry is written over its first block (`SessionOverwrites`; `Overwrite`
  is the editor doing so).  Writing spares every other partition exactly while
  the map's own one has a block for each entry and for the one that is cleared
  behind them (`WriteFootprintIff`), which no command but a resize can change
  (`SessionOwned`, `EditAndWrite`).
* Deleting the last of several logical partitions does not mark the boot record
  before it, so writing the table leaves the deleted partition on the disk
  (`DeleteWriteIff` says exactly when, `DeletedReturns` what is read back).
  Over a whole run nothing but this last boot record gets out of step with the
  disk (`OpenAndRun`), and the next partition that is added puts it right
  (`AddTracked`).
* If the last boot record holds a second partition, deleting the last logical
  partition turns that entry into a pointer to another boot record
  (`DeleteEndsIff` says exactly when); once written, the tables cannot be read,
  or show a partition that was never there (`StrayFollowed`; `LoseTables` is the
  editor doing so).
* In cylinder units, the units the program starts in, whole cylinders that are
  free are granted as asked for; but a single cylinder with nothing free behind
  it gives a partition of one sector (`FindGap`, `AddOnEmptyDisk`).
* An answer that stands for a sector in use is normally asked for again; but if
  one pass over the table leads beyond the limit the command is given up, even
  if there are free sectors elsewhere (`NoSpaceIff`), and that depends on the
  order of the table (`OrderDecides`).
* The search for a new logical partition does not look where its boot record
  will lie.  It lies clear of all data exactly if no partition holds the sector
  `sector_offset` before the new start (`AddClearIff`); with partitions at 126 to
  500 and 1000 to 2000, one at 2010 puts its boot record on sector 1947
  (`OverlaidLink`; `Overlay` is the editor doing so and writing the table).
  Adding one is safe for the chain exactly if no other boot record lies there
  (`AddWriteIff`, and `AddLoses` for what is read back otherwise).  While the DOS
  compatibility flag stays as it is, that never happens (`AddSpaced`,
  `LogicalNeat`), so every table made on an empty disk survives saving
  (`EditDisk`).  After the flag is toggled it does happen: two boot records
  share sector 937, and the partition at 1000 to 2000 is lost (`SharedSector`,
  `ToggledPartitionLost`; `LosePartition` is the editor doing so).
* Converting a block to disk order and back is the identity exactly on blocks
  that do not hold a byte-reversed signature (`Block0RoundTripIff`,
  `DpmeRoundTripIff`); blocks that came from a disk never do.
* The listing of partition types prints entry 0 even of an empty table.

## Model

| member | source | states |
|---|---|---|
| PartitionMaps.PartitionMap.InsertInDiskOrder | partition_map.c:938-968 | the entry is linked before the first address not below its own, both directions of the list kept |
| PartitionMaps.PartitionMap.InsertInBaseOrder | partition_map.c:972-1004 | the entry is linked before the first start not below its own |
| PartitionMaps.PartitionMap.RemoveFromDiskOrder | partition_map.c:916-934 | the entry and nothing else leaves the disk list, which stays threaded both ways |
| PartitionMaps.PartitionMap.RemoveFromBaseOrder | partition_map.c:864-873 | the same for the base list |
| PartitionMaps.PartitionMap.AddDataToMap | partition_map.c:346-374 | a fresh entry enters both orders at their places; the first entry for the map itself fixes the capacity |
| PartitionMaps.PartitionMap.DeleteEntry | partition_map.c:854-877 | the entry leaves both orders and the contents, the count follows |
| PartitionMaps.PartitionMap.RenumberDiskAddresses | partition_map.c:647-660 | addresses become 1..n in list order and every entry records n |
| PartitionMaps.PartitionMap.FindEntryByDiskAddress | partition_map.c:881-893 | exactly the entry of that number, or none |
| PartitionMaps.PartitionMap.FindHolder | partition_map.c:530-540 | the first entry in base order that holds the request |
| PartitionMaps.PartitionMap.PlanAction | partition_map.c:548-572 | replace, adjoin or split, with the sizes left over |
| PartitionMaps.PartitionMap.AddPartitionToMap | partition_map.c:518-614 | the whole effect of a create request, refused requests included, as Create on the two sequences, which `Requests.AcceptsIff` and `Requests.StepSays` put in plain terms; numbering restored |
| PartitionMaps.PartitionMap.HasDriver | partition_map.c:784-811 | true exactly if some driver lies inside the entry; `Requests.DriversInside` says so without wrapped sums |
| PartitionMaps.PartitionMap.CombineEntry | partition_map.c:815-850 | a free entry absorbs its contiguous free neighbours on both sides |
| PartitionMaps.PartitionMap.DeletePartitionFromMap | partition_map.c:756-780 | the whole effect of a delete request, refused ones included, as Delete |
| PartitionMaps.PartitionMap.MoveEntryInMap | partition_map.c:897-912 | the whole effect of a reorder request, unknown numbers included, as Reorder |
| PartitionMaps.PartitionMap.MayResize | partition_map.c:1026-1066 | the checks of a resize, both directions |
| PartitionMaps.PartitionMap.ResizeMap | partition_map.c:1008-1070 | the whole effect of a resize request, as Resize |
| PartitionMaps.PartitionMap.Blank | partition_map.c:430-485 | a new map is one free entry for everything after block 0, at least 4 blocks in all |
| MapModel.MovePlace | partition_map.c:905-908 | with the moved entry taken out, the address (one further when moving up) leads to the clamped number |
| Allocation.CreateEffect | partition_map.c:548-611 | a granted create replaces one free extent by its pieces, in base order and in disk order alike |
| Allocation.DeleteEffect | partition_map.c:769-778 | a delete replaces the extent and its free neighbours by one free extent |
| Requests.AcceptsIff | partition_map.c:518-614 | on a map of disjoint non-empty extents a request of positive length whose end does not wrap is carried out if and only if one free entry has all its blocks, and the number of entries plus one for each non-empty rest is within the capacity |
| Requests.CreateIff | partition_map.c:518-614 | a create changes the map exactly in that case |
| Requests.DriversInside | partition_map.c:784-811 | a driver that does not wrap lies inside an entry exactly if all its blocks do, from the first to the last |
| Requests.DeleteIff | partition_map.c:756-780 | a delete changes nothing exactly if the entry is the map's own type or has all blocks of some driver; otherwise exactly that entry leaves use and its blocks are free |
| Requests.ResizeSays | partition_map.c:1008-1070 | which resize requests go ahead, by the sizes of the map's own entry and of a free one right behind it, and what the first half does |
| Requests.StepSays | partition_map.c:517-1070 | the effect of every command on the partitions, in terms of the map before it |
| Requests.StepGuards | partition_map.c:756-780 | a driver that lies inside an entry in use still lies inside the same entry after any command |
| Requests.SessionGuards | pdisk.c:469-477 | and after any run of commands |
| MapTheorems.CreateKeeps | partition_map.c:518-614 | a carried-out create keeps extents disjoint, covers the same blocks, keeps coalescing and adds exactly the new partition to those in use |
| MapTheorems.CreateSoundIff | partition_map.c:533-535 | a granted create keeps the extents sound if and only if its length is positive and its end does not wrap |
| MapTheorems.UnsoundRequests | partition_map.c:533-535 | on one and the same map an empty request and one whose end wraps around are both accepted |
| MapTheorems.DeleteKeeps | partition_map.c:756-780 | a carried-out delete keeps disjointness, the covered blocks and coalescing, and takes exactly that partition out of use |
| MapTheorems.ReorderMoves | partition_map.c:897-912 | the entry lands at min(max(to, 1), n), the others keep their order, base order and data are untouched |
| UndoCreate.UndoCreateIff | partition_map.c:548-613 | create then delete restores extent, free status and place of every entry in both orders if and only if the cut left no other free neighbour to merge with |
| UndoCreate.UndoCanMerge | partition_map.c:823-848 | a concrete map with two free neighbours where create then delete merges them |
| UndoCreate.CoalescedApart | partition_map.c:814-850 | on a coalesced map that condition always holds |
| MapResize.ResizeIff | partition_map.c:1046-1069 | a resize past its checks conserves the blocks, and ends with the map entry exactly [1, 1 + size) at its old place and all other partitions in use unchanged if and only if the capacity admits the entries; otherwise the map entry is gone |
| MapResize.ResizeRefused | partition_map.c:766-768 | with a driver inside the map's own entry the same resize takes away its type and changes nothing else |
| MapResize.ResizeAnywhere | partition_map.c:1046-1069 | wherever the map's own entry starts above block 0: the resize ends with an entry at block 1, cut from the front of the first free extent, if and only if the entries after the delete admit it; otherwise the map entry is gone |
| MapResize.ResizeFits | partition_map.c:574-582 | with the capacity equal to the length of the map entry the resize never loses it |
| MapResize.ResizeRoom | partition_map.c:1035-1066 | when the entries after a resize fit the new size |
| LostMaps.SessionLosesMap | partition_map.c:367-371 | three commands take every new map of 100 blocks to one without an entry for itself |
| LostMaps.SessionCanLoseMap | partition_map.c:517-614 | there is such a session, and each of its commands is proper |
| LostMaps.LoseMap | partition_map.c:1008-1070 | the same, run by the editor on the heap |
| Sessions.StepKeeps | partition_map.c:517-1070 | on every map of disjoint non-empty extents above block 0 each command keeps them so and covers the same blocks; it keeps a tiling, whole logical extents, coalescing and the capacity where they held |
| Sessions.SessionKeeps | pdisk.c:469-477 | the same for every state of every run of commands |
| Sessions.StepOwned | partition_map.c:517-912 | every command but a resize leaves the map's own entry at block 1 with its size equal to the capacity |
| Sessions.SessionOwned | pdisk.c:469-477 | so does every run of such commands |
| Sessions.InitPartitionMap | partition_map.c:378-398 | a new map tiles [1, size) and its own entry starts at block 1 |
| Sessions.Edit | partition_map.c:517-1070 | every run of commands on the heap is a session of the abstract map and ends well formed |
| Sessions.EditNewMap | partition_map.c:378-398 | after any run of commands on a new map its entries still tile [1, size), no two free neighbours are left unmerged, they fit the capacity, and without a resize the capacity is still the size of the map's own entry |
| OpenedMaps.OpenAndEdit | partition_map.c:197-249 | opening any disk that opens and running any commands: if the entries on the disk are disjoint, the map goes on covering exactly their blocks, entries in use keep the drivers they hold, and without a resize it keeps its own entry |
| OpenedMaps.EditAndReopen | partition_map.c:196-290 | a new map, any commands, saving and opening: both orders are restored and tile the disk |
| MapFiles.WritePartitionMap | partition_map.c:253-290 | the image after writing, as a function of the image before |
| MapFiles.ReadPartitionMap | partition_map.c:197-249 | opening succeeds exactly on images whose entries agree on their number; the lists hold exactly those entries, base order sorted; drivers and device size stay |
| MapFiles.CapacityIs | partition_map.c:367-371 | the capacity of an opened map is the size of its first entry of the map's own type, in the order of the disk, where that fits a C int; without one there is none |
| MapFiles.WrittenOpens | partition_map.c:197-290 | what was written always opens, with the same entries under the same numbers |
| MapFiles.RoundTrip | partition_map.c:196-374 | with distinct starts, opening what was written restores both orders |
| MapFiles.SaveAndReopen | partition_map.c:196-290 | the same as one program on the heap |
| Footprints.SparesIff | partition_map.c:267-288 | whatever is on the disk, writing changes no block of a partition if and only if it begins behind the last block touched: the last entry, or the one cleared behind it |
| Footprints.WriteFootprintIff | partition_map.c:267-288 | on a map that tiles the disk, writing spares every partition but the first if and only if that one has a block for each entry and the capacity does not make it clear the block behind them |
| Footprints.WriteFootprint | partition_map.c:367-371 | which is so while its size is the capacity and the entries fit it |
| Footprints.EditAndWrite | partition_map.c:253-290 | a new map, any commands, writing: the same equivalence, and without a resize no block of another partition changes |
| Footprints.SessionOverwrites | partition_map.c:1008-1070 | two commands take every new map of 200 blocks to one whose writing does not spare a partition |
| Footprints.Overwrite | partition_map.c:267-276 | the same, run by the editor: the first block of the partition holds the third entry |
| Convert.Reverse2 | convert.c:185-192 | the two bytes and no others change places |
| Convert.Reverse4 | convert.c:196-206 | the four bytes and no others are reversed |
| Convert.ConvertBlock0 | convert.c:133-181 | the block becomes its form in the other order: which fields are swapped depends on signature, direction and driver count |
| Convert.ConvertBzb | convert.c:103-128 | the same for the boot block structure inside an entry |
| Convert.ConvertDpme | convert.c:75-98 | the same for a whole entry |
| Convert.Block0Kept | convert.c:144-169 | a converted block zero is recognised by the opposite conversion with the same driver count |
| Convert.Block0RoundTripIff | convert.c:133-181 | to disk order and back is the identity if and only if the block does not hold the reversed signature |
| Convert.Block0WriteKeeps | partition_map.c:262-265 | writing block zero leaves its copy in memory unchanged, whatever was read |
| Convert.DpmeRoundTripIff | convert.c:75-128 | the same equivalence for entries and the boot block magic |
| Convert.DpmeWriteKeeps | partition_map.c:274-276 | writing an entry leaves its copy in memory unchanged, whatever was read |
| ByteOrder.Block0Reads | convert.c:133-181 | block zero with its signature in either order: every field of the header and of as many driver descriptors as the bytes 16 and 17 count is read with its big-endian value, the signature ends up in processor order, and all bytes behind are left alone |
| ByteOrder.Block0Writes | convert.c:133-181 | block zero is written the same way, by the count in memory |
| ByteOrder.Block0Ignored | convert.c:141-155 | a block zero without the signature is left alone in both directions |
| ByteOrder.DpmeConverts | convert.c:75-128 | the fields of an entry change their order in any case and its texts never; those of the boot block structure exactly if the magic is there, on reading in either order |
| ByteOrder.EntryMeans | dpme.h:92-101 | signature, number of entries, extents and flags of an entry are the big-endian values at the offsets of the struct, name and type the texts at 16 and 48 |
| ByteOrder.TextIs | dpme.h:97-98 | a text is what stands before the first null byte, or all of it |
| ByteFiles.ZapForm | partition_map.c:279-285 | clearing the first byte of a block on the disk clears the high byte of the signature that is read, and nothing else |
| ByteFiles.WrittenMeans | partition_map.c:253-290 | the bytes that are written, read back through the conversion, mean exactly the entries that `MapFiles.Written` says are written |
| ByteFiles.BytesOpen | partition_map.c:197-290 | every buffer is read back byte for byte, and the map opens to what the buffers mean |
| ByteFiles.WriteMap | partition_map.c:259-288 | converting each buffer in place, writing it and converting it back leaves those bytes on the disk and every buffer as it was |
| DeviceSize.ComputeDeviceSize | partition_map.c:708-751 | the end of a readable stretch, with at most 41 reads and no wrap-around, on any device |
| DeviceSize.ProbeDevice | partition_map.c:708-751 | on a device of S blocks the answer is min(S, 2^30 + 1) |
| ListTypes.ColumnEnds | fdisk.c:302-303 | the columns are balanced: heights differ by at most one and never grow |
| ListTypes.ListTypes | fdisk.c:297-315 | every index of a non-empty table is printed exactly once and no other, row by row through columns of consecutive indices; an empty table prints index 0 |
| Chs.SetHsc | fdisk.c:101-108 | the sector, head and cylinder read out of an encoded address are those of the sector, the cylinder modulo 1024 |
| Chs.CalculateSetHsc | fdisk.c:96-108 | encoding and decoding a sector loses exactly the multiples of full_bits |
| Chs.Rounded | fdisk.c:379-387 | the largest sector up to the start that the address may stand for; terminates |
| Chs.ChsRecovery | fdisk.c:379-387 | a sector encoded without clamping is recovered |
| Chs.FirstOfWritten | fdisk.c:332-346 | the start found for a written record is at most the true one and less than full_bits before it, and equal exactly unless it was clamped off it |
| Chs.WrittenAddress | fdisk.c:340-345 | the address in a written record never lies after its sector |
| Chs.PartitionWritten | fdisk.c:332-346 | what a written record says: its sectors counted from the table, and for either end the address of that sector, or the last address of cylinder 1023 if the sector lies beyond and the DOS compatibility flag is set |
| Chs.PrimaryConsistent | fdisk.c:830-880 | with at most 1024 cylinders a written primary entry has equal physical and logical begin and end |
| ExtendedChain.DeleteKeepsChain | fdisk.c:725-768 | deleting first, middle or last, from any chain that can be read, keeps every link but the last leading to the next and every other logical partition at its absolute place |
| ExtendedChain.DeleteEndsIff | fdisk.c:725-742 | the chain still ends after a delete if and only if the deleted one was not the last with something in its pointer, and it ended before or the last one is deleted |
| ExtendedChain.AddKeepsChain | fdisk.c:1133-1201 | adding, to any chain that can be read, keeps the chain and every other logical partition, and the new one has exactly the sectors settled on |
| ExtendedChain.AddEndsIff | fdisk.c:1176-1182 | with a new link the chain ends, whatever its last pointer was |
| ExtendedChain.ReadConnected | fdisk.c:410-469 | on any disk, cyclic ones too, reading ends with at most 56 links that fit together and a last pointer that leads nowhere |
| ChainFiles.ChainRoundTripIff | fdisk.c:1249-1262 | writing the marked buffers and reading the disk reproduces the chain if and only if no two links share a sector, every buffer uses the slots that reading picks, what is not marked is on the disk, and the last pointer leads nowhere |
| ChainFiles.DeleteWriteIff | fdisk.c:715-768 | after a delete on a chain whose unmarked buffers are on the disk, writing the marked ones brings the disk up to date if and only if the deleted one was not the last of several or the one before was marked |
| ChainFiles.DeletedReturns | fdisk.c:725-728 | in the other case the deleted partition is read back |
| ChainFiles.DeletedReturnsOnDisk | fdisk.c:725-728 | a concrete disk of two logical partitions on which that happens |
| ChainFiles.DeleteMost | fdisk.c:715-768 | whatever is deleted, only the last link can be left unmarked and different from the disk |
| ChainFiles.AddTracked | fdisk.c:1176-1182 | after adding, everything unmarked is on the disk again |
| ChainFiles.AddWriteIff | fdisk.c:1164-1181 | after an add on a chain whose unmarked buffers are on the disk, writing the marked ones brings the disk up to date if and only if no new link is needed or no other link lies at start - sector_offset |
| ChainFiles.AddLoses | fdisk.c:1133-1134 | otherwise the links before that one and then the new partition are read back, and what was there and behind is lost |
| MadeChains.DeleteMade | fdisk.c:725-768 | deleting keeps every buffer in the layout that reading chooses by itself |
| MadeChains.AddMade | fdisk.c:1192-1196 | so does adding |
| MadeChains.DeletePoints | fdisk.c:729-742 | deleting a logical partition that is not the last hands its pointer on to the link in front, addresses and extent included, and leaves all other pointers with their partitions |
| MadeChains.DeleteSpans | fdisk.c:725-768 | deleting keeps every link pointer covering exactly the sectors from the next link to the end of its partition |
| MadeChains.AddSpans | fdisk.c:1176-1182 | so does adding; the new pointer has the addresses of its first and last sector |
| MadeChains.MadeTidy | fdisk.c:440-466 | in that layout reading picks the slots in use |
| MadeChains.DeleteSpaced | fdisk.c:725-768 | deleting keeps every later link exactly sector_offset before its partition |
| MadeChains.AddSpaced | fdisk.c:1102-1134 | a start above the first link and at no other partition's start brings its link to a sector of its own, and keeps the distance |
| GapSearch.ReadInt | fdisk.c:587-646 | the first answer within bounds, or none |
| GapSearch.Advance | fdisk.c:1103-1113 | one pass over the partitions in the order of the table, as `Search.Pass`; `GapAnswers.PassFirst` says where it leads |
| GapSearch.FindStart | fdisk.c:1102-1132 | what the first loop comes to for any answers, and how many of them it takes: no space if the search does not come to rest, else the first answer that is in bounds and either free or without space behind it; terminates |
| GapSearch.Trim | fdisk.c:1136-1141 | the largest limit with no partition or link sector beginning before it |
| GapSearch.FindGap | fdisk.c:1102-1162 | exactly what `Search.Given` finds; what is granted meets no partition and no link sector; free sectors that are asked for at once are granted, and free cylinders too, except that one cylinder with nothing free behind it gives its first sector |
| GapModel.RestGoal | fdisk.c:1102-1113 | the search never passes a sector that it cannot jump over |
| GapModel.GivenGranted | fdisk.c:1102-1162 | what is found lies within bounds and meets no partition and no link sector, whatever the answers |
| GapAnswers.RestLaws | fdisk.c:1102-1113 | if no sector is kept twice, the first question is asked at the sector reached by going behind one keeper after the other, whatever the order of the table |
| GapAnswers.PrimariesDisjoint | fdisk.c:1084-1099 | which is so for safe tables without logical partitions, in sector units and with exact addresses |
| GapAnswers.RestNext | fdisk.c:1102-1113 | without DOS compatibility it is asked at the next free sector, and there is none up to the limit exactly if the search does not come to rest |
| GapAnswers.PassFirst | fdisk.c:1103-1113 | an answer in use is moved behind the first partition of the table that keeps it, and stays there unless a later one keeps that sector too |
| GapAnswers.NoSpaceIff | fdisk.c:1114-1115 | no space is reported if and only if the search does not come to rest, or the first answer not refused stands for a sector behind which one pass leads beyond the limit |
| GapAnswers.FirstFree | fdisk.c:1116-1130 | the first answer for a free sector settles the start, whenever those before it are out of bounds or in use with a resting place behind them |
| GapAnswers.GivenSectors | fdisk.c:1102-1162 | in sector units the partition then ends with the first further answer up to which nothing begins |
| GapAnswers.GivenCylinders | fdisk.c:1142-1162 | in cylinder units it ends with the last sector of the first cylinder named that has a free sector behind the start, or where the next thing begins; with its first sector if all of that is in one cylinder |
| GapAnswers.AskedInstead | fdisk.c:1116-1120 | a concrete dialogue: an answer inside a partition is refused and the next ones are granted |
| GapAnswers.OrderDecides | fdisk.c:1103-1120 | two partitions, listed in one order or the other: after the same answers the command is given up or goes on |
| MbrModel.GrantedApart | fdisk.c:961-979 | whatever the units and the rounding, granted sectors are disjoint from the true sectors of every partition |
| MbrModel.SearchIs | fdisk.c:1084-1099 | the sectors that the search goes by are those of the disk or of the extended partition, and those of every partition and link, without any wrap-around |
| MbrModel.UnitFirstIs | fdisk.c:1097-1099 | in cylinder units a partition counts from the first sector of its first cylinder |
| MbrModel.FreeStretch | fdisk.c:1084-1148 | in sector units no stretch that every partition leaves free is refused to a primary partition |
| MbrModel.FreeGap | fdisk.c:1084-1148 | the same for every partition, logical ones included, if the search can come to rest somewhere before the stretch |
| MbrModel.FreeWhole | fdisk.c:1084-1148 | in cylinder units whole cylinders that every partition and link stays clear of are free in that sense, primary and logical partitions alike |
| Cylinders.EmptyFree | fdisk.c:1084-1162 | on an empty disk all cylinders are free, and only the last one alone gives one sector |
| Cylinders.AddOnEmptyDisk | fdisk.c:1071-1162 | the same, run by the editor with the units it starts in |
| MbrModel.AddPrimarySafe | fdisk.c:1071-1176 | adding a primary or extended partition keeps all partitions on the disk and pairwise disjoint, logical ones inside the extended one |
| MbrModel.AddLogicalSafe | fdisk.c:1190-1201 | so does adding a logical partition |
| MbrModel.DeleteSafe | fdisk.c:705-769 | so does deleting any partition |
| MbrModel.DeleteSurvives | fdisk.c:705-769 | whatever is deleted, every other primary entry is as it was and every other partition in use is still there, except the logical ones when the extended one goes |
| MbrFiles.LogicalNeat | fdisk.c:1190-1201 | with an unchanged sector_offset every logical partition that is granted brings its link to a sector of its own |
| LinkSectors.AddClearIff | fdisk.c:1133-1182 | on a table whose boot records lie clear of all data, adding a logical partition keeps them so if and only if no new boot record is needed or no partition holds the sector `sector_offset` before the start |
| LinkSectors.DeleteClear | fdisk.c:705-769 | deleting always keeps them so |
| LinkSectors.OverlaidLink | fdisk.c:1133-1134 | on one disk the search grants sectors 2010 to 3000 and the boot record lies at 1947, inside the partition from 1000 to 2000 |
| LinkSectors.Overlay | fdisk.c:1249-1262 | the same, run by the editor: once the table is written, that sector of the partition holds the boot record |
| MbrFiles.TablesRoundTripIff | fdisk.c:501-507 | with the primary table marked or on the disk, writing the tables and starting again gives the same tables if and only if no two links share a sector, every buffer uses the slots that reading picks, what is not marked is on the disk, and the last pointer leads nowhere |
| MbrFiles.MadeTablesReturn | fdisk.c:1249-1262 | so tables the editor made and kept apart always come back |
| ToggledLinks.SharedSector | fdisk.c:1133-1134 | on one disk the toggled flag makes the search grant sectors 938 to 999, whose link lies at 937 like an older one |
| ToggledLinks.ToggledPartitionLost | fdisk.c:1254-1262 | once that is written, the partition at 1000 to 2000 is not read back |
| LostPartitions.LosePartition | fdisk.c:692-700 | the same, run by the editor: what it writes and reads again lacks that partition |
| MbrEditor.ScanTable | fdisk.c:440-465 | the slots for the partition and for the link, four-entry tables of any contents |
| MbrEditor.Editor.ReadExtended | fdisk.c:410-469 | the arrays after reading, as the links found on the disk; an unreadable sector ends the program |
| MbrEditor.Editor.GetBoot | fdisk.c:501-507 | the tables taken over from a disk, as the function Boot: the chain of the first extended entry with a start, or none |
| MbrEditor.Editor.DeletePartition | fdisk.c:705-769 | the whole table after a delete, and safety; the partition is gone and nothing else is, entry by entry |
| MbrEditor.Editor.RemoveLink | fdisk.c:754-764 | closing the gap in the parallel arrays |
| MbrEditor.Editor.CheckBounds | fdisk.c:961-979 | the bounds of every partition, the extended one included when a primary is added |
| MbrEditor.Editor.Prepare | fdisk.c:1084-1099 | the tables and limits of the search, in both units |
| MbrEditor.Editor.AddPrimary | fdisk.c:1071-1188 | the gap is exactly what the search finds for these answers; the whole table after adding a primary or extended partition there, or no change, and safety |
| MbrEditor.Editor.AddLogical | fdisk.c:1190-1201 | the same for a logical partition |
| MbrEditor.Editor.WriteTable | fdisk.c:1249-1262 | the disk after writing: the primary table if it is marked, and the marked boot records |
| MbrEditor.Editor.Execute | fdisk.c:1204-1247 | what each command makes of the tables and the settings: the partition deleted, the gap that the search finds for the answers filled, or no change |
| MbrEditor.Editor.Run | fdisk.c:705-1247 | a run of commands is the sequence of their effects; after it no two partitions that hold data share a sector, buffers keep their layout and marks, link pointers what they cover, and without toggling the flag links stay at sectors of their own |
| OpenedTables.FitIff | fdisk.c:410-507 | the disks that open to safe tables, by what is on them |
| OpenedTables.OpenAndRun | fdisk.c:501-507 | starting on such a disk and running any commands: partitions stay apart, and only the last boot record can get out of step with the disk |
| OpenedTables.EditOpened | fdisk.c:1249-1262 | after such a run, writing and starting again gives the same tables under exactly the conditions above, and safe; for tables of the editor's own making that comes down to the last boot record being marked or on the disk |
| OpenedTables.EditDisk | fdisk.c:470-507 | an empty disk, any run of commands without toggling, writing, starting again: the tables are the same, safe, and still the editor's own, every link pointer covering its link and partition |
| StrayEntries.StrayFollowed | fdisk.c:725-742 | on any disk with these records, deleting the last logical partition and writing makes the stray entry a pointer: nothing opens, or one partition more than there was |
| StrayEntries.LoseTables | fdisk.c:705-769 | the same, run by the editor on three sectors: it cannot be started on them again |

## Left out

- The user interface (`pdisk.c`, `dump.c`, `errors.c`, menus and prompts), the parsers of `io.c` and the SCSI wrappers: commands are calls, and fdisk's questions are a list of numbers of which those out of bounds are asked for again.
- `fdisklabel.c`, `bitfield.c`, geometry detection, ioctl, sync, reopening after a write and failing allocation.
- Big-endian builds, where the conversion does nothing.
- The header pointer of an entry is the receiver of the operation, its buffer is held by value, and names and types are values: the 32-byte truncation of strings and stale bytes behind them are not modelled.
- The fields of an entry that the editors never look at are one sequence; `PartitionMap.dfy` works on entries, `ByteFiles.dfy` on the buffers they are stored in, and no member ties the two heaps together.
- partition_map.c:579 compares with an enumeration, which some compilers make unsigned; the model compares signed numbers, which differs only for a map partition of 2^31 blocks or more.
- coerce_block0 and the other fields of block zero than its drivers; re-initialising an open map.
- Convert.ConvertBlock0: convert_block0 with more than 61 drivers runs past the block, so at most 61 are required.
- Sessions.StepKeeps: create requests of length 0 or past 2^32 are outside the sessions; `MapTheorems.CreateSoundIff` says why.
- MapResize.ResizeIff: for a map entry at block 1; `ResizeAnywhere` is the same for any other place above block 0, with the condition on what the delete leaves.
- The parallel arrays of fdisk.c are one array of records, pointers into a buffer are slot numbers, and a buffer is its four entries; the marks of the four primary entries are one flag, because only whether any is set matters.
- delete_partition writes index 5 of its arrays even when the fifth partition is the last one; the model does so too, where it has no effect.
- An abandoned dialogue never returns in the original; `AddLogical` promises nothing after one.
- GapSearch.ReadInt: an answer is the number it comes to; how the prompt forms one from a default or from a size with a unit is left out, and since every number is checked against the bounds, all answers are covered.
- GapSearch.FindGap: that a new link sector avoids the data and the links of other logical partitions is not guaranteed by the search; `LinkSectors.AddClearIff` says when it avoids the data, `AddWriteIff` and `AddSpaced` when it avoids the links.
- GapAnswers.RestLaws: for searches in which no sector is kept twice; with an extended partition around its logical ones, or rounded addresses, what is known of the resting place is `GapModel.RestGoal` and that nothing blocks it.
- MbrEditor.Editor.WriteTable: the signature at the end of a boot record and the warning about a wrong one, which marks the record, are not modelled.
- MbrModel.FreeStretch: for sector units, as is `FreeGap`; `FreeWhole` is the same for cylinder units and whole cylinders.  That the search can rest before the stretch is a sufficient condition.
- fdisk's own verify, its change of system ids, its expert menu and listing, and extended partitions beyond the first.
