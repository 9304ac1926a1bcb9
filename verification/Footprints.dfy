/**
 Which partitions writing a map changes (partition_map.c): the blocks of its
 entries, and at most one behind them, should all be the map's own.
 */
module Footprints {
  import opened Words
  import opened Seqs
  import opened MapModel
  import opened Geometry
  import opened Views
  import opened Allocation
  import opened MapTheorems
  import opened MapResize
  import opened Entries
  import opened PartitionMaps
  import opened Sessions
  import opened MapFiles
  import LostMaps

  /** The last block that write_partition_map touches for `n` entries: the one after them, if the capacity allows. */
  function LastTouched(n: nat, maximum: int): nat {
    if n < maximum then n + 1 else n
  }

  predicate SameBlock(image: Image, r: Image, x: int) {
    (x in r <==> x in image) && (x in r ==> r[x] == image[x])
  }

  /** Whatever is on the disk, writing the entries `w` changes no block of the partition `d`. */
  ghost predicate Spares(w: seq<Dpme>, maximum: int, d: Dpme) {
    forall image, block0, count, x :: d.start <= x < End(d) ==>
      SameBlock(image, Written(image, block0, w, count, maximum), x)
  }

  /** A disk on which block `x` shows that it was touched. */
  lemma Touched(w: seq<Dpme>, maximum: int, x: int, block0: Block)
    requires 1 <= x <= LastTouched(|w|, maximum)
    ensures exists image :: !SameBlock(image, Written(image, block0, w, 0, maximum), x)
  {
    var image: Image := if x <= |w| then map[] else map[x := block0.(signature := DPME_SIGNATURE)];
    WrittenAt(image, block0, w, 0, maximum, x);
    assert !SameBlock(image, Written(image, block0, w, 0, maximum), x);
  }

  /** Writing spares exactly the partitions that begin behind the last block it touches. */
  lemma SparesIff(w: seq<Dpme>, maximum: int, d: Dpme)
    requires 0 < d.start && 0 < d.blocks
    ensures Spares(w, maximum, d) <==> LastTouched(|w|, maximum) < d.start
  {
    if LastTouched(|w|, maximum) < d.start {
      forall image, block0, count, x | d.start <= x < End(d)
        ensures SameBlock(image, Written(image, block0, w, count, maximum), x)
      {
        WrittenAt(image, block0, w, count, maximum, x);
      }
    } else {
      var block0 := Block(0, 0, d);
      Touched(w, maximum, d.start, block0);
      var image :| !SameBlock(image, Written(image, block0, w, 0, maximum), d.start);
    }
  }

  /** Every partition but the first in base order is spared. */
  ghost predicate SparesOthers<Id>(s: State<Id>)
    requires WF(s)
  {
    forall k :: 0 < k < |s.base| ==> Spares(DiskView(s), s.maximum, BaseView(s)[k])
  }

  /**
   Writing a map that tiles the disk from block 1 on changes no block of any partition
   but the first if and only if the first has a block for each entry, and the capacity
   does not make it clear the block after them.
   */
  lemma WriteFootprintIff<Id>(s: State<Id>, hi: int)
    requires WF(s) && Sound(BaseView(s)) && Tiles(BaseView(s), 1, hi) && 1 < |s.disk|
    ensures |s.base| == |s.disk|
    ensures var own := BaseView(s)[0].blocks;
      SparesOthers(s) <==> |s.disk| < own || (|s.disk| == own && s.maximum <= own)
  {
    hide Spares, Written, Coherent, NoDup, Elements, View;
    SameSize(s);
    var v, last := BaseView(s), LastTouched(|s.disk|, s.maximum);
    SparesIff(DiskView(s), s.maximum, v[1]);
    forall k | 0 < k < |v| ensures last <= v[0].blocks ==> Spares(DiskView(s), s.maximum, v[k]) {
      assert End(v[0]) <= v[k].start;
      SparesIff(DiskView(s), s.maximum, v[k]);
    }
  }

  /** While the capacity is the size of the map's own partition, writing touches no block of any other. */
  lemma WriteFootprint<Id>(s: State<Id>)
    requires WF(s) && Sound(BaseView(s)) && Owned(s) && |s.disk| <= s.maximum
    ensures SparesOthers(s)
  {
    hide Spares, Written, Coherent, NoDup, Elements, View;
    forall k | 0 < k < |s.base| ensures Spares(DiskView(s), s.maximum, BaseView(s)[k]) {
      assert End(BaseView(s)[0]) <= BaseView(s)[k].start;
      SparesIff(DiskView(s), s.maximum, BaseView(s)[k]);
    }
  }

  // ----- sessions

  /** A new map, any commands, writing: without a resize no block of another partition changes. */
  method EditAndWrite(size: u32, commands: seq<Command>, device: Device, block0: Block) returns (m: PartitionMap)
    requires forall c :: c in commands ==> Proper(c)
    modifies device
    ensures m.Valid() && 0 < |m.disk| <= m.maximumInMap <= 63
    ensures m.Count() < U32
    ensures device.blocks == Written(old(device.blocks), block0, DiskView(m.Model()), m.Count(), m.maximumInMap)
    ensures 1 < |m.disk| == |m.base| ==> var own := BaseView(m.Model())[0].blocks;
      SparesOthers(m.Model()) <==> |m.disk| < own || (|m.disk| == own && m.maximumInMap <= own)
    ensures (forall c :: c in commands ==> !c.ResizeCommand?) ==> SparesOthers(m.Model())
  {
    hide Coherent, NoDup, Elements, View, OnDisk, ByBase, Whole, Coalesced, Covers, SparesOthers, Written, Sound, Owned;
    m := EditNewMap(size, commands);
    ghost var s := m.Model();
    SomeEntries(s, 1, if size < 4 then 4 else size);
    WritePartitionMap(m, device, block0);
    if 1 < |m.disk| {
      WriteFootprintIff(s, if size < 4 then 4 else size);
    }
    if forall c :: c in commands ==> !c.ResizeCommand? {
      WriteFootprint(s);
    }
  }

  // ----- a session after which writing destroys a partition

  const UNIX := OtherType("Apple_UNIX_SVR2")

  /** Shrink the map entry to 2 blocks, and use the block behind it. */
  const COMMANDS := [ResizeCommand(2), CreateCommand("a", UNIX, 3, 10)]

  /** A map that init_partition_map makes on a disk of 200 blocks. */
  ghost predicate New<Id>(s: State<Id>) {
    && WF(s) && |s.disk| == |s.base| == 2 && s.maximum == 63 && s.media == 200 && s.drivers == []
    && BaseView(s) == [NewMapEntry(63), Sized(FreeData(1, 199).(flags := BLANK_FLAGS), 64, 136)]
  }

  ghost predicate Shrunk<Id>(s: State<Id>) {
    && Managed(s) && |s.base| == |s.disk| == 2 && s.maximum == 63 && s.drivers == []
    && BaseView(s) == [NewMapEntry(2), FreeData(3, 197)]
  }

  /** Three entries, the second at block 3, on a map with room for 63. */
  ghost predicate Crowded<Id>(s: State<Id>) {
    && WF(s) && |s.base| == |s.disk| == 3 && s.maximum == 63
    && BaseView(s) == [NewMapEntry(2), CreateData("a", UNIX, 3, 10), FreeData(13, 187)]
  }

  lemma ShrunkView<Id>(s: State<Id>)
    requires New(s)
    ensures Resizing(s, 2) && Managed(s) && Resized(s, 2) == [NewMapEntry(2), FreeData(3, 197)]
  {
    hide Coherent, NoDup, Elements, View;
    assert MapIndex(BaseView(s)) == 0;
  }

  lemma Shrinks<Id>(s: State<Id>, ids: seq<Id>)
    requires New(s) && FreshIds(s, ids, ResizeAllocates(s, 2))
    ensures Shrunk(Resize(s, 2, ids))
  {
    hide Coherent, NoDup, Elements, View, Resize, Conserves, Resized, ResizeAllocates, Sound, Covers;
    ShrunkView(s);
    ResizeEffect(s, 2, ids);
    LostMaps.ResizeFixed(s, 2, ids);
    SameSize(Resize(s, 2, ids));
    hide Managed;
  }

  lemma Crowds<Id>(s: State<Id>, ids: seq<Id>)
    requires Shrunk(s) && FreshIds(s, ids, Allocates(s, 3, 10))
    ensures Crowded(Create(s, "a", UNIX, 3, 10, ids))
  {
    hide Coherent, NoDup, Elements, View, Create;
    HolderUnique(BaseView(s), 3, 10, 1);
    CreateEffect(s, "a", UNIX, 3, 10, ids);
    CreateStep(s, "a", UNIX, 3, 10, ids);
    SameSize(Create(s, "a", UNIX, 3, 10, ids));
  }

  /** Block 3 is the first block of the new partition, and where the third entry is written. */
  lemma CrowdedOverwrites<Id>(s: State<Id>, image: Image, block0: Block)
    requires Crowded(s)
    ensures !SparesOthers(s)
    ensures var r := Written(image, block0, DiskView(s), 3, s.maximum); 3 in r && r[3] == EntryBlock(DiskView(s)[2], 3)
  {
    hide Spares, Written, Coherent, NoDup, Elements, View;
    assert Tiles(BaseView(s), 1, 200);
    WriteFootprintIff(s, 200);
    WrittenAt(image, block0, DiskView(s), 3, s.maximum, 3);
  }

  /** Every session of these commands on such a map leads there. */
  lemma SessionOverwrites<Id>(states: seq<State<Id>>, ids: seq<seq<Id>>)
    requires Session(states, COMMANDS, ids) && New(states[0])
    ensures Crowded(states[2]) && !SparesOthers(states[2])
    ensures forall c :: c in COMMANDS ==> Proper(c)
  {
    hide New, Shrunk, Crowded, FreshIds, Resize, ResizeAllocates, Create, Allocates, SparesOthers;
    Shrinks(states[0], ids[0]);
    ShrunkFormed(states[1]);
    Crowds(states[1], ids[1]);
    CrowdedOverwrites(states[2], map[], Block(0, 0, FreeData(0, 0)));
  }

  lemma ShrunkFormed<Id>(s: State<Id>)
    requires Shrunk(s)
    ensures WF(s)
  {
  }

  /** The same, run by the editor: the first block of partition "a" is overwritten by the third entry. */
  method Overwrite(device: Device, block0: Block) returns (m: PartitionMap)
    modifies device
    ensures m.Valid() && |m.disk| == |m.base| == 3
    ensures BaseView(m.Model())[1] == CreateData("a", UNIX, 3, 10)
    ensures 3 in device.blocks && device.blocks[3] == EntryBlock(DiskView(m.Model())[2], 3)
  {
    hide Coherent, NoDup, Elements, View, OnDisk, ByBase, Written, SparesOthers, Crowded, New;
    m := InitPartitionMap(200);
    NewIs(m.Model());
    ghost var states, ids := Edit(m, COMMANDS);
    SessionOverwrites(states, ids);
    CrowdedOverwrites(m.Model(), device.blocks, block0);
    CrowdedIs(m);
    WritePartitionMap(m, device, block0);
  }

  lemma CrowdedIs(m: PartitionMap)
    requires m.Valid() && Crowded(m.Model())
    ensures |m.disk| == |m.base| == 3 && m.Count() == 3 && m.maximumInMap == 63
    ensures BaseView(m.Model())[1] == CreateData("a", UNIX, 3, 10)
  {
    hide Coherent, NoDup, Elements, View, OnDisk, ByBase;
  }

  lemma NewIs<Id>(s: State<Id>)
    requires WF(s) && s.maximum == 63 && s.media == 200 && s.drivers == []
    requires BaseView(s) == [
      CreateData("Apple", MapType, 1, 63), Sized(FreeData(1, 199).(flags := BLANK_FLAGS), 64, 136)]
    ensures New(s)
  {
  }
}
