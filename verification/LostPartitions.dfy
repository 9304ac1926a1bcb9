/** The run of ToggledLinks.dfy, carried out by the editor. */
module LostPartitions {
  import opened Words
  import opened Chs
  import opened ExtendedChain
  import opened ChainFiles
  import opened MadeChains
  import opened GapModel
  import opened MbrModel
  import opened MbrFiles
  import opened ToggledLinks
  import opened MbrEditor

  /** An extended partition on an empty disk, after the units were changed to sectors. */
  method MakeExtended() returns (e: Editor)
    ensures fresh(e) && fresh(e.mbr) && fresh(e.links)
    ensures e.Valid() && e.Using() == WITH_DOS && e.bootChanged && e.Model() == Extended()
  {
    hide SearchOf, Granted, Search.Free, Safe;
    SaneSettings();
    ExtendedHolds();
    e := new Editor(GEOMETRY);
    e.ChangeUnits();
    var outcome := e.AddPrimary(0, EXTENDED, [63, 100000]);
  }

  /** A logical partition at sectors that are free. */
  method AddFree(e: Editor, start: u32, stop: u32)
    requires e.Valid() && e.Model().links != [] && e.extendedOffset != 0 && e.partitions < MAXIMUM_PARTS
    requires LogicalSearch(e.Using(), e.Model(), e.links[e.partitions].changed).Free(start, stop)
    modifies e`partitions, e.links
    ensures e.Valid() && e.Model() == LogicalAdded(old(e.Using()), old(e.Model()), false, start, stop)
  {
    hide SearchOf, LogicalSearch, Granted, Search.Free, LogicalAdded, Safe;
    AnyMark(e.Using(), e.Model(), e.links[e.partitions].changed, start, stop);
    var gap := e.AddLogical([start, stop]);
  }

  /** The tables on the way. */
  lemma Steps()
    ensures WITH_DOS.g.Sane() && WITHOUT_DOS.g.Sane()
    ensures |Extended().links| == 1 && Extended().base == 63
    ensures |One().links| == 1 && One().base == 63 && One() == LogicalAdded(WITH_DOS, Extended(), false, 126, 500)
    ensures |Two().links| == 2 && Two().base == 63 && Two() == LogicalAdded(WITH_DOS, One(), false, 1000, 2000)
    ensures |Three().links| == 3 && Three() == LogicalAdded(WITHOUT_DOS, Two(), false, 938, 999)
  {
    hide Filled, SearchOf, Granted, Search.Free, Safe, PrimaryAdded;
    SaneSettings();
    ExtendedHolds();
    FirstHolds(false);
    SharedSector();
  }

  /** Two logical partitions, then the flag is toggled, then a third. */
  method MakeThree() returns (e: Editor)
    ensures fresh(e) && e.Valid() && e.bootChanged && e.Model() == Three()
  {
    hide LogicalSearch, Search.Free, LogicalAdded, Safe, Extended, One, Two, Three;
    Steps();
    e := MakeExtended();
    FirstHolds(e.links[e.partitions].changed);
    AddFree(e, 126, 500);
    SecondFree(e.links[e.partitions].changed);
    AddFree(e, 1000, 2000);
    e.ToggleDos();
    ThirdFree(e.links[e.partitions].changed);
    AddFree(e, 938, 999);
  }

  lemma OffsetsAre()
    ensures Headed(Three()) && Three().base == 63 && Three().extIndex == 0 && |Three().links| == 3
    ensures forall k :: 0 <= k < 3 ==> Three().links[k].offset != 0
  {
    hide Three, Two, Granted, SearchOf, LogicalSearch, Search.Free;
    SharedSector();
    Steps();
    TwoHolds();
    SafeHeaded(WITHOUT_DOS, Three());
    HeadedChain(Three());
    ThreeHead();
  }

  lemma ThreeHead()
    ensures Three().base == 63 && Three().extIndex == 0
  {
    hide Two, Filled;
    TwoHolds();
  }

  lemma TwoTracked(disk: Disk)
    ensures Tracked(Two().links, disk)
  {
    hide Two;
    TwoMade();
  }

  /** What get_boot takes over once these tables are written. */
  lemma ThreeReturns(disk: Disk)
    requires Tables(disk)
    ensures |Three().links| == 3 && LogicalOf(Three().links[1]).start == 1000
    ensures Tables(WriteTables(disk, Three(), true))
    ensures var b := Boot(WriteTables(disk, Three(), true));
      b.Booted? && b.t.links == Clean(Three().links[..1]) + [Unmarked(Three().links[2])]
  {
    hide Three, Two, ReadFrom, Write, Clean, Chain, AllMade, AllMarked, LogicalOf, Safe, Granted, SearchOf,
        LogicalSearch, Search.Free, FirstExtended;
    OffsetsAre();
    var t, before := Three(), disk[0 := Three().mbr];
    TwoTracked(before);
    ToggledPartitionLost(before);
    WriteKeepsBoot(before, t.links);
    HeadFound(t);
  }

  /** The partition at 1000..2000 is in the tables that are written, and not in those read back. */
  method LosePartition(disk: Disk) returns (e: Editor, ok: bool, r: Editor)
    requires Tables(disk)
    ensures e.Valid() && |e.Model().links| == 3 && LogicalOf(e.Model().links[1]).start == 1000
    ensures r.Shaped() && ok && r.Model().links == Clean(e.Model().links[..1]) + [Unmarked(e.Model().links[2])]
  {
    hide Three, Boot, WriteTables, LogicalOf, Safe, Tables, Clean;
    e := MakeThree();
    var after := e.WriteTable(disk);
    ThreeReturns(disk);
    r := new Editor(GEOMETRY);
    ok := r.GetBoot(after);
  }
}
