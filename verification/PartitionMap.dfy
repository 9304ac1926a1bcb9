/**
 The partition map as partition_map.c keeps it: a header and its entries,
 threaded on two doubly linked lists.  Every operation is proved to keep both
 lists well formed and to have the effect that MapModel gives it.
 */
module PartitionMaps {
  import opened Words
  import opened Seqs
  import opened MapModel
  import opened Entries

  /** struct partition_map_header; the ghost fields are what its two lists hold. */
  class PartitionMap {
    var diskOrder: Entry?
    var baseOrder: Entry?
    var blocksInMap: int
    var maximumInMap: int
    var mediaSize: nat
    var changed: bool
    var drivers: seq<Driver>

    ghost var disk: seq<Entry>
    ghost var base: seq<Entry>
    ghost var contents: map<Entry, Dpme>

    ghost function Model(): State<Entry>
      reads this`disk, this`base, this`contents, this`maximumInMap, this`mediaSize, this`drivers
    {
      State(disk, base, contents, maximumInMap, mediaSize, drivers)
    }

    /** Both lists are well formed and thread the same entries. */
    ghost predicate Linked()
      reads this`diskOrder, this`baseOrder, this`blocksInMap, this`disk, this`base, this`contents
      reads disk`nextOnDisk, disk`prevOnDisk, base`nextByBase, base`prevByBase, contents.Keys`data
    {
      && OnDisk(diskOrder, disk) && ByBase(baseOrder, base)
      && blocksInMap == |disk|
      && Coherent(disk, base, contents)
      && forall e {:trigger e.data} :: e in contents ==> e.data == contents[e]
    }

    /**
     Disk addresses count up from 1 and every entry knows the size of the map; only a map
     of one entry that was opened with a count of zero still records that.
     */
    ghost predicate Numbered()
      reads this`disk, disk`diskAddress, disk`mapEntries
    {
      forall i :: 0 <= i < |disk| ==>
        disk[i].diskAddress == i + 1 && (disk[i].mapEntries == |disk| || (|disk| == 1 && disk[i].mapEntries == 0))
    }

    /** The count that the entries record. */
    ghost function Count(): nat
      reads this`disk, disk`mapEntries
    {
      if disk == [] then 0 else disk[0].mapEntries
    }

    ghost predicate Valid()
      reads this`diskOrder, this`baseOrder, this`blocksInMap, this`disk, this`base, this`contents
      reads disk`nextOnDisk, disk`prevOnDisk, base`nextByBase, base`prevByBase, contents.Keys`data
      reads disk`diskAddress, disk`mapEntries
    {
      Linked() && Numbered()
    }

    // ----- the disk list

    /** The head case of insert_in_disk_order. */
    method LinkFirstOnDisk(entry: Entry)
      requires NoDup(disk) && OnDisk(diskOrder, disk) && entry !in disk
      modifies this`disk, this`diskOrder, entry`nextOnDisk, entry`prevOnDisk, disk`prevOnDisk
      ensures OnDisk(diskOrder, disk) && disk == InsertAt(old(disk), 0, entry)
    {
      var cur := diskOrder;
      diskOrder := entry;
      entry.nextOnDisk := cur;
      if cur != null {
        cur.prevOnDisk := entry;
      }
      entry.prevOnDisk := null;
      InsertedOnDisk(disk, 0, entry);
      disk := InsertAt(disk, 0, entry);
    }

    /** The other case of insert_in_disk_order: `cur` at position `i` is the new predecessor. */
    method LinkAfterOnDisk(cur: Entry, entry: Entry, ghost i: nat)
      requires NoDup(disk) && OnDisk(diskOrder, disk) && entry !in disk && i < |disk| && cur == disk[i]
      modifies this`disk, entry`nextOnDisk, entry`prevOnDisk, disk`nextOnDisk, disk`prevOnDisk
      ensures OnDisk(diskOrder, disk) && disk == InsertAt(old(disk), i + 1, entry)
    {
      entry.nextOnDisk := cur.nextOnDisk;
      cur.nextOnDisk := entry;
      entry.prevOnDisk := cur;
      if entry.nextOnDisk != null {
        entry.nextOnDisk.prevOnDisk := entry;
      }
      InsertedOnDisk(disk, i + 1, entry);
      disk := InsertAt(disk, i + 1, entry);
    }

    /** insert_in_disk_order: the entry goes before the first address that is not below its own. */
    method InsertInDiskOrder(entry: Entry, ghost keys: seq<int>) returns (ghost p: nat)
      requires NoDup(disk) && OnDisk(diskOrder, disk) && entry !in disk
      requires Addressed(disk, keys)
      modifies this`disk, this`diskOrder, entry`nextOnDisk, entry`prevOnDisk, disk`nextOnDisk, disk`prevOnDisk
      ensures OnDisk(diskOrder, disk)
      ensures p == FirstAtLeast(keys, entry.diskAddress) && disk == InsertAt(old(disk), p, entry)
    {
      var cur := diskOrder;
      if cur == null || entry.diskAddress <= cur.diskAddress {
        LinkFirstOnDisk(entry);
        p := 0;
        FirstAtLeastUnique(keys, entry.diskAddress, 0);
      } else {
        p := 1;
        while cur != null
          invariant 1 <= p <= |disk| && cur == disk[p - 1]
          invariant OnDisk(diskOrder, disk) && disk == old(disk) && entry !in disk
          invariant forall j :: 0 <= j < p ==> keys[j] < entry.diskAddress
          invariant Addressed(disk, keys)
          decreases |disk| - p
        {
          if cur.diskAddress <= entry.diskAddress
              && (cur.nextOnDisk == null || entry.diskAddress <= cur.nextOnDisk.diskAddress) {
            LinkAfterOnDisk(cur, entry, p - 1);
            FirstAtLeastUnique(keys, entry.diskAddress, p);
            break;
          }
          cur := cur.nextOnDisk;
          p := p + 1;
        }
      }
    }

    /** remove_from_disk_order */
    method RemoveFromDiskOrder(entry: Entry)
      requires NoDup(disk) && OnDisk(diskOrder, disk) && entry in Elements(disk)
      modifies this`disk, this`diskOrder, disk`nextOnDisk, disk`prevOnDisk
      ensures OnDisk(diskOrder, disk) && disk == Without(old(disk), entry)
      ensures entry.nextOnDisk == null && entry.prevOnDisk == null
    {
      ghost var k := IndexOf(disk, entry);
      var p := entry.nextOnDisk;
      if diskOrder == entry {
        diskOrder := p;
      }
      if p != null {
        p.prevOnDisk := entry.prevOnDisk;
      }
      if entry.prevOnDisk != null {
        entry.prevOnDisk.nextOnDisk := p;
      }
      entry.nextOnDisk := null;
      entry.prevOnDisk := null;
      RemovedOnDisk(disk, k);
      disk := RemoveAt(disk, k);
    }

    // ----- the base list

    /** The head case of insert_in_base_order. */
    method LinkFirstByBase(entry: Entry)
      requires NoDup(base) && ByBase(baseOrder, base) && entry !in base
      modifies this`base, this`baseOrder, entry`nextByBase, entry`prevByBase, base`prevByBase
      ensures ByBase(baseOrder, base) && base == InsertAt(old(base), 0, entry)
    {
      var cur := baseOrder;
      baseOrder := entry;
      entry.nextByBase := cur;
      if cur != null {
        cur.prevByBase := entry;
      }
      entry.prevByBase := null;
      InsertedByBase(base, 0, entry);
      base := InsertAt(base, 0, entry);
    }

    /** The other case of insert_in_base_order: `cur` at position `i` is the new predecessor. */
    method LinkAfterByBase(cur: Entry, entry: Entry, ghost i: nat)
      requires NoDup(base) && ByBase(baseOrder, base) && entry !in base && i < |base| && cur == base[i]
      modifies this`base, entry`nextByBase, entry`prevByBase, base`nextByBase, base`prevByBase
      ensures ByBase(baseOrder, base) && base == InsertAt(old(base), i + 1, entry)
    {
      entry.nextByBase := cur.nextByBase;
      cur.nextByBase := entry;
      entry.prevByBase := cur;
      if entry.nextByBase != null {
        entry.nextByBase.prevByBase := entry;
      }
      InsertedByBase(base, i + 1, entry);
      base := InsertAt(base, i + 1, entry);
    }

    /** insert_in_base_order: the entry goes before the first start that is not below its own. */
    method InsertInBaseOrder(entry: Entry, ghost keys: seq<int>) returns (ghost p: nat)
      requires NoDup(base) && ByBase(baseOrder, base) && entry !in base
      requires |keys| == |base| && forall j :: 0 <= j < |base| ==> base[j].data.start == keys[j]
      modifies this`base, this`baseOrder, entry`nextByBase, entry`prevByBase, base`nextByBase, base`prevByBase
      ensures ByBase(baseOrder, base)
      ensures p == FirstAtLeast(keys, entry.data.start) && base == InsertAt(old(base), p, entry)
    {
      var cur := baseOrder;
      if cur == null || entry.data.start <= cur.data.start {
        LinkFirstByBase(entry);
        p := 0;
        FirstAtLeastUnique(keys, entry.data.start, 0);
      } else {
        p := 1;
        while cur != null
          invariant 1 <= p <= |base| && cur == base[p - 1]
          invariant ByBase(baseOrder, base) && base == old(base) && entry !in base
          invariant forall j :: 0 <= j < p ==> keys[j] < entry.data.start
          invariant forall j :: 0 <= j < |base| ==> base[j].data.start == keys[j]
          decreases |base| - p
        {
          if cur.data.start <= entry.data.start
              && (cur.nextByBase == null || entry.data.start <= cur.nextByBase.data.start) {
            LinkAfterByBase(cur, entry, p - 1);
            FirstAtLeastUnique(keys, entry.data.start, p);
            break;
          }
          cur := cur.nextByBase;
          p := p + 1;
        }
      }
    }

    /** The base-list half of delete_entry. */
    method RemoveFromBaseOrder(entry: Entry)
      requires NoDup(base) && ByBase(baseOrder, base) && entry in Elements(base)
      modifies this`base, this`baseOrder, base`nextByBase, base`prevByBase
      ensures ByBase(baseOrder, base) && base == Without(old(base), entry)
    {
      ghost var k := IndexOf(base, entry);
      var p := entry.nextByBase;
      if baseOrder == entry {
        baseOrder := p;
      }
      if p != null {
        p.prevByBase := entry.prevByBase;
      }
      if entry.prevByBase != null {
        entry.prevByBase.nextByBase := p;
      }
      RemovedByBase(base, k);
      base := RemoveAt(base, k);
    }

    // ----- both lists

    /** The tail of add_data_to_map: the first entry for the map itself fixes its capacity. */
    method CountEntry(entry: Entry)
      modifies this`blocksInMap, this`maximumInMap, this`contents
      ensures blocksInMap == old(blocksInMap) + 1
      ensures maximumInMap == NewMaximum(old(maximumInMap), entry.data)
      ensures contents == old(contents)[entry := entry.data]
    {
      blocksInMap := blocksInMap + 1;
      if maximumInMap < 0 {
        if entry.data.ptype == MapType {
          maximumInMap := ToInt32(entry.data.blocks);
        }
      }
      contents := contents[entry := entry.data];
    }

    /** Both lists consist of entries the map holds. */
    lemma ListsInContents()
      requires Linked()
      ensures forall e :: e in disk ==> e in contents.Keys
      ensures forall e :: e in base ==> e in contents.Keys
    {
      ElementsAre(disk);
      ElementsAre(base);
    }

    /** What base order shows is what its entries hold. */
    lemma BaseHolds()
      requires Linked()
      ensures forall j :: 0 <= j < |base| ==> base[j].data == BaseView(Model())[j]
    {
    }

    /** What disk order shows is what its entries hold. */
    lemma DiskHolds()
      requires Linked()
      ensures forall j :: 0 <= j < |disk| ==> disk[j].data == DiskView(Model())[j]
    {
    }

    lemma ReadyToInsert(entry: Entry)
      requires Linked() && entry !in contents
      ensures NoDup(disk) && NoDup(base) && entry !in disk && entry !in base
      ensures forall j :: 0 <= j < |base| ==> base[j].data.start == Starts(BaseView(Model()))[j]
    {
      BaseHolds();
      ElementIn(disk, entry);
      ElementIn(base, entry);
    }

    /** The two insertions of add_data_to_map. */
    method InsertInBothOrders(entry: Entry, ghost addresses: seq<int>) returns (ghost p: nat, ghost q: nat)
      requires Linked() && entry !in contents
      requires Addressed(disk, addresses)
      modifies this`disk, this`diskOrder, this`base, this`baseOrder
      modifies entry`nextOnDisk, entry`prevOnDisk, entry`nextByBase, entry`prevByBase
      modifies disk`nextOnDisk, disk`prevOnDisk, base`nextByBase, base`prevByBase
      ensures OnDisk(diskOrder, disk) && ByBase(baseOrder, base)
      ensures p == FirstAtLeast(addresses, entry.diskAddress) && disk == InsertAt(old(disk), p, entry)
      ensures q == BasePlace(old(Model()), entry.data.start) && base == InsertAt(old(base), q, entry)
    {
      hide Coherent, NoDup, OnDisk, ByBase, InsertAt, Elements, View;
      ghost var starts := Starts(BaseView(Model()));
      ReadyToInsert(entry);
      p := InsertInDiskOrder(entry, addresses);
      q := InsertInBaseOrder(entry, starts);
    }

    /** add_data_to_map, once the entry is filled in. */
    method AddEntry(entry: Entry, ghost addresses: seq<int>)
      requires Linked() && entry !in contents
      requires Addressed(disk, addresses)
      modifies this`disk, this`diskOrder, this`base, this`baseOrder, this`contents, this`blocksInMap, this`maximumInMap
      modifies entry`nextOnDisk, entry`prevOnDisk, entry`nextByBase, entry`prevByBase
      modifies contents.Keys`nextOnDisk, contents.Keys`prevOnDisk, contents.Keys`nextByBase, contents.Keys`prevByBase
      ensures Linked()
      ensures Model() == AddData(old(Model()), entry, entry.data, FirstAtLeast(addresses, entry.diskAddress))
    {
      hide Coherent, OnDisk, ByBase, NoDup, InsertAt, Elements, View, FirstAtLeast, BasePlace;
      ListsInContents();
      ghost var p, q := InsertInBothOrders(entry, addresses);
      CountEntry(entry);
      CoherentInsert(old(disk), old(base), old(contents), entry, p, q, entry.data);
    }

    /** add_data_to_map */
    method AddDataToMap(data: Dpme, mapEntries: nat, index: int, ghost addresses: seq<int>) returns (entry: Entry)
      requires Linked()
      requires Addressed(disk, addresses)
      modifies this`disk, this`diskOrder, this`base, this`baseOrder, this`contents, this`blocksInMap, this`maximumInMap
      modifies contents.Keys`nextOnDisk, contents.Keys`prevOnDisk, contents.Keys`nextByBase, contents.Keys`prevByBase
      ensures Linked() && fresh(entry) && entry !in old(contents)
      ensures entry.diskAddress == index && entry.mapEntries == mapEntries
      ensures contents.Keys == old(contents.Keys) + {entry}
      ensures Model() == AddData(old(Model()), entry, data, FirstAtLeast(addresses, index))
    {
      entry := new Entry(data, mapEntries, index);
      AddEntry(entry, addresses);
    }

    /** The two removals of delete_entry. */
    method RemoveFromBothOrders(entry: Entry)
      requires Linked() && entry in contents
      modifies this`disk, this`diskOrder, this`base, this`baseOrder
      modifies disk`nextOnDisk, disk`prevOnDisk, base`nextByBase, base`prevByBase
      ensures OnDisk(diskOrder, disk) && ByBase(baseOrder, base)
      ensures disk == Without(old(disk), entry) && base == Without(old(base), entry)
    {
      RemoveFromDiskOrder(entry);
      RemoveFromBaseOrder(entry);
    }

    lemma CoherentEntry(entry: Entry)
      requires Linked() && entry in contents
      ensures entry in Elements(disk) && entry in Elements(base) && WF(Model())
    {
    }

    /** delete_entry */
    method DeleteEntry(entry: Entry)
      requires Linked() && entry in contents
      modifies this`disk, this`diskOrder, this`base, this`baseOrder, this`contents, this`blocksInMap
      modifies contents.Keys`nextOnDisk, contents.Keys`prevOnDisk, contents.Keys`nextByBase, contents.Keys`prevByBase
      ensures Linked()
      ensures Model() == MapModel.DeleteEntry(old(Model()), entry)
    {
      hide Coherent, OnDisk, ByBase, NoDup, Elements;
      ListsInContents();
      CoherentEntry(entry);
      RemoveFromBothOrders(entry);
      blocksInMap, contents := blocksInMap - 1, contents - {entry};
      CoherentWithout(old(disk), old(base), old(contents), entry);
    }

    /** renumber_disk_addresses */
    method RenumberDiskAddresses()
      requires Linked()
      modifies contents.Keys`diskAddress, contents.Keys`mapEntries
      ensures Valid() && Count() == |disk|
      ensures forall i :: 0 <= i < |disk| ==> disk[i].diskAddress == i + 1 && disk[i].mapEntries == |disk|
    {
      var cur := diskOrder;
      var index := 1;
      while cur != null
        invariant 1 <= index <= |disk| + 1 && cur == At(disk, index - 1)
        invariant forall i :: 0 <= i < index - 1 ==> disk[i].diskAddress == i + 1 && disk[i].mapEntries == |disk|
        decreases |disk| + 1 - index
      {
        ElementAt(disk, index - 1);
        cur.diskAddress, cur.mapEntries := index, blocksInMap;
        cur, index := cur.nextOnDisk, index + 1;
      }
    }

    /** find_entry_by_disk_address */
    method FindEntryByDiskAddress(index: int) returns (cur: Entry?)
      requires Valid()
      ensures cur == At(disk, index - 1)
    {
      cur := diskOrder;
      ghost var i := 0;
      while cur != null
        invariant 0 <= i <= |disk| && cur == At(disk, i)
        invariant forall j :: 0 <= j < i ==> disk[j].diskAddress != index
        decreases |disk| - i
      {
        if cur.diskAddress == index {
          break;
        }
        cur := cur.nextOnDisk;
        i := i + 1;
      }
    }

    // ----- the editing commands

    /** The middle of move_entry_in_map: `cur`, at position `k`, goes where `address` belongs. */
    method MoveOnDisk(cur: Entry, address: int, ghost k: nat)
      requires NoDup(disk) && OnDisk(diskOrder, disk) && k < |disk| && cur == disk[k]
      requires forall i :: 0 <= i < |disk| ==> disk[i].diskAddress == i + 1
      modifies this`disk, this`diskOrder, disk`nextOnDisk, disk`prevOnDisk, cur`diskAddress
      ensures OnDisk(diskOrder, disk)
      ensures disk == InsertAt(RemoveAt(old(disk), k), FirstAtLeast(RemoveAt(Numbers(|old(disk)|), k), address), cur)
    {
      ghost var rest := RemoveAt(Numbers(|disk|), k);
      RemoveNoDup(disk, k);
      ElementIn(RemoveAt(disk, k), cur);
      RemoveFromDiskOrder(cur);
      cur.diskAddress := address;
      ghost var p := InsertInDiskOrder(cur, rest);
    }

    lemma DiskParts()
      requires Linked()
      ensures NoDup(disk) && OnDisk(diskOrder, disk) && Coherent(disk, base, contents)
      ensures forall e :: e in disk ==> e in contents.Keys
    {
      ElementsAre(disk);
    }

    /** The effect of moving entry number `from` on the lists. */
    method MoveNumber(cur: Entry, from: int, to: int)
      requires Valid() && 1 <= from <= |disk| && cur == disk[from - 1]
      modifies this`disk, this`diskOrder, disk`nextOnDisk, disk`prevOnDisk, cur`diskAddress
      ensures Linked()
      ensures Model() == Reorder(old(Model()), from, to)
    {
      hide NoDup, InsertAt, RemoveAt, Coherent, OnDisk, ByBase, Elements, FirstAtLeast;
      DiskParts();
      MovePlace(|disk|, from, to);
      CoherentMove(disk, base, contents, from - 1, Clamp(to, |disk|) - 1);
      MoveOnDisk(cur, if from < to then to + 1 else to, from - 1);
    }

    /** Moving entry number `from` and numbering the entries anew. */
    method MoveAndRenumber(cur: Entry, from: int, to: int)
      requires Valid() && 1 <= from <= |disk| && cur == disk[from - 1]
      modifies this`disk, this`diskOrder, contents.Keys
      ensures Valid() && Model() == Reorder(old(Model()), from, to)
    {
      ListsInContents();
      hide *;
      MoveNumber(cur, from, to);
      RenumberDiskAddresses();
    }

    /** move_entry_in_map */
    method MoveEntryInMap(oldIndex: int, index: int)
      requires Valid()
      modifies this`disk, this`diskOrder, this`changed, contents.Keys
      ensures Valid()
      ensures Model() == Reorder(old(Model()), oldIndex, index)
      ensures changed == (old(changed) || 1 <= oldIndex <= |old(disk)|)
    {
      hide NoDup, OnDisk, ByBase, InsertAt, RemoveAt, Elements, Coherent;
      var cur := FindEntryByDiskAddress(oldIndex);
      if cur != null {
        MoveAndRenumber(cur, oldIndex, index);
        changed := true;
      }
    }

    // ----- creating a partition

    /** The search of add_partition_to_map. */
    method FindHolder(b: u32, len: u32) returns (cur: Entry?)
      requires Linked()
      ensures cur == At(base, Holder(BaseView(Model()), b, len))
    {
      ghost var v := BaseView(Model());
      BaseHolds();
      cur := baseOrder;
      ghost var i := 0;
      while cur != null
        invariant 0 <= i <= |base| && cur == At(base, i)
        invariant forall j :: 0 <= j < i ==> !Holds(v[j], b, len)
        decreases |base| - i
      {
        if cur.data.start <= b && Add32(b, len) <= Add32(cur.data.start, cur.data.blocks) {
          break;
        }
        cur := cur.nextByBase;
        i := i + 1;
      }
      HolderUnique(v, b, len, i);
    }

    /** Overwriting an entry's buffer. */
    method SetData(cur: Entry, data: Dpme)
      requires Linked() && cur in contents
      modifies this`contents, contents.Keys`data
      ensures Linked()
      ensures Model() == old(Model()).(data := old(contents)[cur := data])
    {
      cur.data := data;
      contents := contents[cur := data];
    }

    /** The kAdd case: the free entry `cur` shrinks to `rest` and a new entry takes its address. */
    method AdjoinData(cur: Entry, rest: Dpme, data: Dpme, ghost addresses: seq<int>) returns (entry: Entry)
      requires Linked() && Addressed(disk, addresses) && cur in contents
      modifies this`disk, this`diskOrder, this`base, this`baseOrder, this`contents, this`blocksInMap, this`maximumInMap
      modifies contents.Keys`nextOnDisk, contents.Keys`prevOnDisk, contents.Keys`nextByBase,
          contents.Keys`prevByBase, contents.Keys`data
      ensures Linked() && fresh(entry) && entry !in old(contents)
      ensures contents.Keys == old(contents.Keys) + {entry}
      ensures Model() == AddData(old(Model()).(data := old(contents)[cur := rest]), entry, data,
          FirstAtLeast(addresses, cur.diskAddress))
      ensures Addressed(disk, InsertAt(addresses, FirstAtLeast(addresses, cur.diskAddress), cur.diskAddress))
    {
      SetData(cur, rest);
      entry := AddDataToMap(data, 1, cur.diskAddress, addresses);
      AddressedInsert(old(disk), addresses, FirstAtLeast(addresses, cur.diskAddress), entry);
    }

    /** The kSplit case: besides, a free entry for the blocks below takes the same address. */
    method SplitData(cur: Entry, rest: Dpme, data: Dpme, below: Dpme, ghost k: nat)
      returns (entry: Entry, entry2: Entry)
      requires Linked() && k < |disk| && cur == disk[k] && cur in contents
      requires cur.diskAddress == k + 1 && Addressed(disk, Numbers(|disk|))
      modifies this`disk, this`diskOrder, this`base, this`baseOrder, this`contents, this`blocksInMap, this`maximumInMap
      modifies contents.Keys`nextOnDisk, contents.Keys`prevOnDisk, contents.Keys`nextByBase,
          contents.Keys`prevByBase, contents.Keys`data
      ensures Linked() && fresh({entry, entry2}) && entry != entry2
      ensures entry !in old(contents) && entry2 !in old(contents)
      ensures contents.Keys == old(contents.Keys) + {entry, entry2}
      ensures Model() ==
        AddData(AddData(old(Model()).(data := old(contents)[cur := rest]), entry, data, k), entry2, below, k)
    {
      hide *;
      ghost var keys := Numbers(|disk|);
      SamePlaceTwice(|disk|, k);
      entry := AdjoinData(cur, rest, data, keys);
      entry2 := AddDataToMap(below, 1, cur.diskAddress, InsertAt(keys, k, k + 1));
    }

    /** What add_partition_to_map decides to do with the free entry `d`, and the sizes it works out. */
    static method PlanAction(d: Dpme, b: u32, len: u32)
      returns (act: Action, adjusted: Dpme, below: Dpme)
      ensures act == ActionFor(d, b, len)
      ensures act != Replace ==> adjusted == Remainder(d, b, len)
      ensures act == Split ==> below == FreeData(d.start, Sub32(b, d.start))
    {
      var adjustedBase, adjustedLength: u32 := 0, 0;
      var newBase, newLength: u32 := 0, 0;
      if d.start == b {
        if d.blocks == len {
          act := Replace;
        } else {
          act := Adjoin;
          adjustedBase := Add32(b, len);
          adjustedLength := Sub32(d.blocks, len);
        }
      } else if Add32(d.start, d.blocks) == Add32(b, len) {
        act := Adjoin;
        adjustedBase := d.start;
        adjustedLength := Sub32(b, adjustedBase);
      } else {
        act := Split;
        newBase := d.start;
        newLength := Sub32(b, newBase);
        adjustedBase := Add32(b, len);
        adjustedLength := Sub32(d.blocks, Add32(len, newLength));
      }
      adjusted := d.(start := adjustedBase, blocks := adjustedLength, lblocks := adjustedLength);
      below := FreeData(newBase, newLength);
    }

    /** The last part of add_partition_to_map, once the request is granted. */
    method PlaceData(cur: Entry, ghost k: nat, data: Dpme, act: Action, adjusted: Dpme,
        below: Dpme) returns (ghost ids: seq<Entry>)
      requires Valid() && k < |disk| && cur == disk[k] && cur in contents
      modifies this`disk, this`diskOrder, this`base, this`baseOrder, this`contents, this`blocksInMap, this`maximumInMap
      modifies contents.Keys`nextOnDisk, contents.Keys`prevOnDisk, contents.Keys`nextByBase, contents.Keys`prevByBase
      modifies contents.Keys`data
      ensures Linked()
      ensures |ids| == Cost(act) && NoDup(ids)
      ensures forall e :: e in ids ==> fresh(e) && e !in old(contents)
      ensures contents.Keys == old(contents.Keys) + set e | e in ids
      ensures Model() == Place(old(Model()), cur, k, data, act, adjusted, below, ids)
    {
      hide Coherent, OnDisk, ByBase, AddData, InsertAt, Elements, NoDup, FirstAtLeast;
      ids := [];
      NoDupEmpty<Entry>();
      match act {
        case Replace =>
          SetData(cur, data);
        case Adjoin =>
          SamePlaceTwice(|disk|, k);
          var entry := AdjoinData(cur, adjusted, data, Numbers(|disk|));
          ids := [entry];
          NoDupFew(entry, entry);
          assert (set e | e in ids) == {entry};
        case Split =>
          var entry, entry2 := SplitData(cur, adjusted, data, below, k);
          ids := [entry, entry2];
          NoDupFew(entry, entry2);
          assert (set e | e in ids) == {entry, entry2};
      }
    }

    /** The end of add_partition_to_map. */
    method PlaceAndRenumber(cur: Entry, ghost k: nat, data: Dpme, act: Action, adjusted: Dpme, below: Dpme)
      returns (ghost ids: seq<Entry>)
      requires Valid() && k < |disk| && cur == disk[k] && cur in contents
      modifies this`disk, this`diskOrder, this`base, this`baseOrder, this`contents, this`blocksInMap,
          this`maximumInMap, this`changed
      modifies contents.Keys
      ensures Valid() && changed
      ensures |ids| == Cost(act) && NoDup(ids)
      ensures forall e :: e in ids ==> fresh(e) && e !in old(contents)
      ensures contents.Keys == old(contents.Keys) + set e | e in ids
      ensures Model() == Place(old(Model()), cur, k, data, act, adjusted, below, ids)
    {
      hide *;
      ids := PlaceData(cur, k, data, act, adjusted, below);
      RenumberDiskAddresses();
      changed := true;
    }

    /** add_partition_to_map; `ids` are the entries it allocates. */
    method AddPartitionToMap(name: string, ptype: PartType, b: u32, len: u32) returns (ok: bool, ghost ids: seq<Entry>)
      requires Valid()
      modifies this, contents.Keys
      ensures Valid() && mediaSize == old(mediaSize) && drivers == old(drivers)
      ensures FreshIds(old(Model()), ids, Allocates(old(Model()), b, len)) && fresh(set e | e in ids)
      ensures contents.Keys == old(contents.Keys) + set e | e in ids
      ensures Model() == Create(old(Model()), name, ptype, b, len, ids)
      ensures ok == Accepts(old(Model()), b, len) && changed == (old(changed) || ok)
    {
      hide OnDisk, ByBase, AddData, InsertAt, Holder, ActionFor, Remainder;
      ids := [];
      var cur := FindHolder(b, len);
      if cur == null || cur.data.ptype != FreeType {
        return false, [];
      }
      ghost var k := Holder(BaseView(Model()), b, len);
      BaseHolds();
      ElementAt(base, k);
      ghost var p := IndexOf(disk, base[k]);
      var act, adjusted, below := PlanAction(cur.data, b, len);
      var limit := if maximumInMap < 0 then mediaSize else maximumInMap;
      if blocksInMap + Cost(act) > limit {
        return false, [];
      }
      ids := PlaceAndRenumber(cur, p, CreateData(name, ptype, b, len), act, adjusted, below);
      ok := true;
    }

    // ----- deleting a partition

    /** Growing `entry` by the adjacent entry `p`, which goes away. */
    method Absorb(entry: Entry, p: Entry, data: Dpme)
      requires Linked() && entry in contents && p in contents && entry != p
      modifies this`disk, this`diskOrder, this`base, this`baseOrder, this`contents, this`blocksInMap
      modifies contents.Keys`nextOnDisk, contents.Keys`prevOnDisk, contents.Keys`nextByBase, contents.Keys`prevByBase
      modifies contents.Keys`data
      ensures Linked() && contents.Keys == old(contents.Keys) - {p}
      ensures Model() == MapModel.DeleteEntry(old(Model()).(data := old(contents)[entry := data]), p)
    {
      SetData(entry, data);
      hide Coherent, NoDup, OnDisk, ByBase, Elements, Without;
      DeleteEntry(p);
    }

    /** The base links of an entry, as places in base order. */
    lemma Neighbours(entry: Entry)
      requires Linked() && entry in contents
      ensures entry in Elements(base) && WF(Model())
      ensures var k := IndexOf(base, entry);
        && entry.nextByBase == At(base, k + 1) && entry.prevByBase == At(base, k - 1)
        && entry.data == BaseView(Model())[k]
        && (k + 1 < |base| ==>
              base[k + 1] != entry && base[k + 1] in contents && base[k + 1].data == BaseView(Model())[k + 1])
        && (0 < k ==> base[k - 1] != entry && base[k - 1] in contents && base[k - 1].data == BaseView(Model())[k - 1])
    {
      ListsInContents();
      BaseHolds();
    }

    /** The first half of combine_entry. */
    method CombineNext(entry: Entry)
      requires Linked() && entry in contents && entry.data.ptype == FreeType
      modifies this`disk, this`diskOrder, this`base, this`baseOrder, this`contents, this`blocksInMap
      modifies contents.Keys`nextOnDisk, contents.Keys`prevOnDisk, contents.Keys`nextByBase, contents.Keys`prevByBase
      modifies contents.Keys`data
      ensures Linked() && entry in contents && entry.data.ptype == FreeType && contents.Keys <= old(contents.Keys)
      ensures Model() == MergeNext(old(Model()), entry)
    {
      hide Coherent, NoDup, OnDisk, ByBase, Elements, View;
      Neighbours(entry);
      if entry.nextByBase != null {
        var p := entry.nextByBase;
        if p.data.ptype == FreeType && Add32(entry.data.start, entry.data.blocks) == p.data.start {
          Absorb(entry, p, Merge(entry.data, p.data, entry.data));
        }
      }
    }

    /** The second half of combine_entry. */
    method CombinePrev(entry: Entry)
      requires Linked() && entry in contents && entry.data.ptype == FreeType
      modifies this`disk, this`diskOrder, this`base, this`baseOrder, this`contents, this`blocksInMap
      modifies contents.Keys`nextOnDisk, contents.Keys`prevOnDisk, contents.Keys`nextByBase, contents.Keys`prevByBase
      modifies contents.Keys`data
      ensures Linked() && entry in contents && contents.Keys <= old(contents.Keys)
      ensures Model() == MergePrev(old(Model()), entry)
    {
      hide Coherent, NoDup, OnDisk, ByBase, Elements, View;
      Neighbours(entry);
      if entry.prevByBase != null {
        var p := entry.prevByBase;
        if p.data.ptype == FreeType && Add32(p.data.start, p.data.blocks) == entry.data.start {
          Absorb(entry, p, Merge(p.data, entry.data, entry.data));
        }
      }
    }

    /** combine_entry */
    method CombineEntry(entry: Entry)
      requires Linked() && entry in contents
      modifies this`disk, this`diskOrder, this`base, this`baseOrder, this`contents, this`blocksInMap
      modifies contents.Keys`nextOnDisk, contents.Keys`prevOnDisk, contents.Keys`nextByBase, contents.Keys`prevByBase
      modifies contents.Keys`data
      ensures Linked() && contents.Keys <= old(contents.Keys)
      ensures Model() == Combine(old(Model()), entry)
    {
      if entry.data.ptype != FreeType {
        return;
      }
      CombineNext(entry);
      CombinePrev(entry);
    }

    /** contains_driver */
    method HasDriver(entry: Entry) returns (found: bool)
      ensures found == ContainsDriver(drivers, entry.data)
    {
      var i := 0;
      while i < |drivers|
        invariant 0 <= i <= |drivers|
        invariant !ContainsDriver(drivers[..i], entry.data)
      {
        if entry.data.start <= drivers[i].block
            && Add32(drivers[i].block, drivers[i].size) <= Add32(entry.data.start, entry.data.blocks) {
          return true;
        }
        i := i + 1;
      }
      assert drivers[..i] == drivers;
      found := false;
    }

    /** delete_partition_from_map */
    method DeletePartitionFromMap(entry: Entry)
      requires Valid() && entry in contents
      modifies this, contents.Keys
      ensures Valid() && contents.Keys <= old(contents.Keys)
      ensures Model() == Delete(old(Model()), entry)
      ensures mediaSize == old(mediaSize) && drivers == old(drivers)
      ensures changed == (old(changed) || Deletable(old(Model()), entry))
    {
      hide Coherent, OnDisk, ByBase, Combine, ContainsDriver;
      if entry.data.ptype == MapType {
        return;
      }
      var driver := HasDriver(entry);
      if driver {
        return;
      }
      SetData(entry, FreeData(entry.data.start, entry.data.blocks));
      CombineEntry(entry);
      RenumberDiskAddresses();
      changed := true;
    }

    // ----- resizing the map itself

    /** The search of resize_map. */
    method FindMapEntry() returns (entry: Entry?)
      requires Linked()
      ensures entry == At(base, MapIndex(BaseView(Model())))
    {
      ghost var v := BaseView(Model());
      BaseHolds();
      entry := baseOrder;
      ghost var i := 0;
      while entry != null
        invariant 0 <= i <= |base| && entry == At(base, i)
        invariant forall j :: 0 <= j < i ==> v[j].ptype != MapType
        decreases |base| - i
      {
        if entry.data.ptype == MapType {
          break;
        }
        entry := entry.nextByBase;
        i := i + 1;
      }
      MapIndexUnique(v, i);
    }

    /** The checks of resize_map on the map entry and its successor. */
    method MayResize(entry: Entry, newSize: int) returns (ok: bool)
      requires Linked() && entry in contents
      requires var k := MapIndex(BaseView(Model())); k < |base| && entry == base[k]
      ensures ok == ResizeStarts(BaseView(Model()), newSize)
    {
      BaseHolds();
      var next := entry.nextByBase;
      if newSize == entry.data.blocks {
        return false;
      }
      if newSize < entry.data.blocks {
        var incr := if next == null || next.data.ptype != FreeType then 1 else 0;
        return blocksInMap + incr <= newSize;
      }
      if next == null || next.data.ptype != FreeType {
        return false;
      }
      if Add32(entry.data.start, entry.data.blocks) != next.data.start {
        return false;
      }
      return newSize <= Add32(entry.data.blocks, next.data.blocks);
    }

    /** The middle of resize_map: the map entry loses its type, then its place. */
    method BlankAndDelete(entry: Entry)
      requires Valid() && entry in contents
      requires var k := MapIndex(BaseView(Model())); k < |base| && entry == base[k]
      modifies this, contents.Keys
      ensures Valid() && mediaSize == old(mediaSize) && drivers == old(drivers)
      ensures contents.Keys <= old(contents.Keys)
      ensures Model() == ResizeMiddle(old(Model()))
    {
      hide Coherent, OnDisk, ByBase, Delete, Deletable;
      BaseHolds();
      SetData(entry, entry.data.(ptype := OtherType("")));
      DeletePartitionFromMap(entry);
    }

    /** resize_map */
    method ResizeMap(newSize: int) returns (ghost ids: seq<Entry>)
      requires Valid()
      modifies this, contents.Keys
      ensures Valid() && mediaSize == old(mediaSize) && drivers == old(drivers)
      ensures FreshIds(old(Model()), ids, ResizeAllocates(old(Model()), newSize)) && fresh(set e | e in ids)
      ensures contents.Keys <= old(contents.Keys) + set e | e in ids
      ensures Model() == Resize(old(Model()), newSize, ids)
    {
      hide OnDisk, ByBase, Numbered, Create, ResizeMiddle, Elements, Coherent, NoDup, View, ResizeStarts,
          Allocates, MapIndex;
      ids := [];
      NoDupEmpty<Entry>();
      ghost var k := MapIndex(BaseView(Model()));
      var entry := FindMapEntry();
      if entry == null {
        NoMapEntry(BaseView(Model()), newSize);
        return [];
      }
      ListsInContents();
      var ok := MayResize(entry, newSize);
      if !ok {
        return [];
      }
      BlankAndDelete(entry);
      ok, ids := AddPartitionToMap("Apple", MapType, 1, ToU32(newSize));
    }

    // ----- a new map

    /** The empty header that open_partition_map starts from. */
    constructor Empty(size: nat, drivers: seq<Driver>)
      ensures Valid() && Model() == State([], [], map[], -1, size, drivers)
      ensures !changed
    {
      diskOrder, baseOrder, blocksInMap, maximumInMap := null, null, 0, -1;
      mediaSize, changed, this.drivers := size, false, drivers;
      disk, base, contents := [], [], map[];
    }

    /** create_partition_map: one free entry for everything after block 0. */
    constructor Blank(size: u32)
      ensures Valid() && fresh(contents.Keys) && changed
      ensures mediaSize == (if size < 4 then 4 else size) && maximumInMap == -1 && drivers == []
      ensures BaseView(Model()) == [FreeData(1, mediaSize - 1).(flags := BLANK_FLAGS)]
    {
      diskOrder, baseOrder, blocksInMap, maximumInMap := null, null, 0, -1;
      mediaSize := if size < 4 then 4 else size;
      changed, drivers := true, [];
      disk, base, contents := [], [], map[];
      hide *;
      new;
      EmptyLinked();
      FreeIsNoMap(1, mediaSize - 1);
      AddFirst(FreeData(1, mediaSize - 1).(flags := BLANK_FLAGS));
    }

    static lemma FreeIsNoMap(start: u32, blocks: u32)
      ensures FreeData(start, blocks).(flags := BLANK_FLAGS).ptype != MapType
    {
    }

    lemma EmptyLinked()
      requires diskOrder == null && baseOrder == null && blocksInMap == 0
      requires disk == [] && base == [] && contents == map[]
      ensures Linked()
    {
    }

    /** The only entry of a blank map. */
    method AddFirst(data: Dpme)
      requires Linked() && disk == [] && base == [] && contents == map[] && data.ptype != MapType
      modifies this`disk, this`diskOrder, this`base, this`baseOrder, this`contents, this`blocksInMap, this`maximumInMap
      ensures Valid() && fresh(contents.Keys) && maximumInMap == old(maximumInMap)
      ensures BaseView(Model()) == [data]
    {
      hide Coherent, OnDisk, ByBase, NoDup, View, InsertAt;
      ghost var empty := Model();
      var entry := AddDataToMap(data, 1, 1, []);
      FirstEntry(empty, entry, data);
    }
  }
}
