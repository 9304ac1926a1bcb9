/**
 Where the boot record of a new logical partition comes to lie (add_partition in fdisk.c):
 the search looks at the sectors of the partition only.
 */
module LinkSectors {
  import opened Words
  import opened Chs
  import opened ExtendedChain
  import opened ChainFiles
  import opened GapModel
  import opened MbrModel
  import opened MbrFiles
  import opened ToggledLinks
  import opened MbrEditor
  import opened MadeChains
  import opened LostPartitions

  predicate Covers(l: Logical, x: int) {
    l.start <= x < l.start + l.count
  }

  /** Partition `j` holds data, and sector `x` is one of its own. */
  predicate Holds(t: Table, j: nat, x: int)
    requires |t.mbr| == 4 && j < t.Size()
  {
    t.HoldsData(j) && Covers(t.At(j), x)
  }

  /** No partition holds data in sector `x`. */
  predicate HoldsNone(t: Table, x: int)
    requires |t.mbr| == 4
  {
    forall j :: 0 <= j < t.Size() ==> !Holds(t, j, x)
  }

  /** No boot record lies on a sector of a partition that holds data. */
  predicate LinksClear(t: Table)
    requires |t.mbr| == 4
  {
    forall k :: 0 <= k < |t.links| ==> HoldsNone(t, t.links[k].offset)
  }

  /** What is granted keeps clear of the boot records there are. */
  lemma GrantedClear(s: Settings, t: Table, changed: bool, start: u32, stop: u32, k: nat)
    requires s.Sane() && |t.mbr| == 4 && t.extIndex < 4 && k < |t.links|
    requires Granted(LogicalSearch(s, t, changed), start, stop)
    ensures !(start <= t.links[k].offset <= stop)
  {
    var o, n := OpenTable(t, changed), 3 + |Opened(t.links, changed)|;
    assert o.Offset(4 + k) == t.links[k].offset;
    assert SearchOf(s, o, n).offsets[4 + k] == o.Offset(4 + k);
  }

  /** What partition `j` and boot record `k` are after adding a logical partition. */
  lemma AddedHolds(s: Settings, t: Table, changed: bool, start: u32, stop: u32, k: nat, j: nat)
    requires Safe(s, t) && s.Sane() && t.base != 0 && t.links != [] && |t.links| < MOST_LINKS
    requires Granted(LogicalSearch(s, t, changed), start, stop)
    requires k < |Opened(t.links, changed)| && j < 4 + |Opened(t.links, changed)|
    ensures var r, n := LogicalAdded(s, t, changed, start, stop), 3 + |Opened(t.links, changed)|;
      && |r.mbr| == 4 && r.Size() == n + 1 && k < |r.links| && n <= t.Size()
      && (|t.links| < |Opened(t.links, changed)| ==> n == t.Size() && s.sectorOffset <= start)
      && r.links[k].offset == (if k < |t.links| then t.links[k].offset else start - s.sectorOffset)
      && (j != n ==> j < t.Size() && forall x :: Holds(r, j, x) <==> Holds(t, j, x))
      && (j == n ==> r.HoldsData(j) && forall x :: Covers(r.At(j), x) <==> start <= x <= stop)
  {
    SafeHeaded(s, t);
    GrantedElsewhere(s, t, changed, start, stop, 0);
    GrantedOnDisk(s, t, changed, start, stop);
    OpenedLength(t.links, changed);
    AddLogicalSafe(s, t, changed, start, stop);
    hide Safe, Headed, Granted, LogicalSearch, LogicalAdded, Opened, ExtendedChain.NewLogical, SetPartition, LogicalOf;
    FilledOffset(s, t, changed, start, stop, k);
    LogicalAt(s, t, changed, start, stop, j);
    NewExtent(s, start, stop);
  }

  lemma NewExtent(s: Settings, start: u32, stop: u32)
    requires s.g.Sane() && start <= stop < U32 - 1
    ensures var l := ExtendedChain.NewLogical(s.g, s.dos, start, stop);
      l.kind == LINUX_NATIVE && forall x :: Covers(l, x) <==> start <= x <= stop
  {
    LogicalExtent(s.g, s.dos, start, stop);
    hide SetHsc, Clamp;
  }

  /** The sector for the boot record of a new logical partition at `start`, if it gets one, holds no data. */
  predicate RoomForLink(s: Settings, t: Table, changed: bool, start: u32)
    requires |t.mbr| == 4 && t.links != []
  {
    |t.links| < |Opened(t.links, changed)| ==> HoldsNone(t, start - s.sectorOffset)
  }

  /**
   Adding a logical partition keeps boot records and data apart exactly if the sector for its own
   boot record, `sectorOffset` before its start, holds no data.
   */
  lemma AddClearIff(s: Settings, t: Table, changed: bool, start: u32, stop: u32)
    requires Safe(s, t) && s.Sane() && t.base != 0 && t.links != [] && |t.links| < MOST_LINKS
    requires Granted(LogicalSearch(s, t, changed), start, stop) && LinksClear(t)
    ensures LinksClear(LogicalAdded(s, t, changed, start, stop)) <==> RoomForLink(s, t, changed, start)
  {
    SafeHeaded(s, t);
    OpenedLength(t.links, changed);
    AddedHolds(s, t, changed, start, stop, 0, 0);
    hide Safe, Headed, Granted, LogicalSearch, LogicalAdded, Opened, Holds, LogicalOf, RoomForLink;
    var r := LogicalAdded(s, t, changed, start, stop);
    if LinksClear(r) {
      RoomWas(s, t, changed, start, stop);
    }
    if RoomForLink(s, t, changed, start) {
      forall k, j | 0 <= k < |r.links| && 0 <= j < r.Size() ensures !Holds(r, j, r.links[k].offset) {
        AddedApart(s, t, changed, start, stop, k, j);
      }
    }
  }

  lemma RoomWas(s: Settings, t: Table, changed: bool, start: u32, stop: u32)
    requires Safe(s, t) && s.Sane() && t.base != 0 && t.links != [] && |t.links| < MOST_LINKS
    requires Granted(LogicalSearch(s, t, changed), start, stop)
    requires var r := LogicalAdded(s, t, changed, start, stop); |r.mbr| == 4 && LinksClear(r)
    ensures RoomForLink(s, t, changed, start)
  {
    SafeHeaded(s, t);
    OpenedLength(t.links, changed);
    hide Safe, Headed, Granted, LogicalSearch, LogicalAdded, Opened, Holds, LogicalOf;
    var r, m, x := LogicalAdded(s, t, changed, start, stop), |Opened(t.links, changed)|, start - s.sectorOffset;
    if |t.links| < m {
      forall j | 0 <= j < t.Size() ensures !Holds(t, j, x) {
        AddedHolds(s, t, changed, start, stop, m - 1, j);
        assert HoldsNone(r, r.links[m - 1].offset);
      }
    }
  }

  lemma AddedApart(s: Settings, t: Table, changed: bool, start: u32, stop: u32, k: nat, j: nat)
    requires Safe(s, t) && s.Sane() && t.base != 0 && t.links != [] && |t.links| < MOST_LINKS
    requires Granted(LogicalSearch(s, t, changed), start, stop) && LinksClear(t)
    requires k < |Opened(t.links, changed)| && j < 4 + |Opened(t.links, changed)|
    requires RoomForLink(s, t, changed, start)
    ensures var r := LogicalAdded(s, t, changed, start, stop);
      |r.mbr| == 4 && k < |r.links| && j < r.Size() && !Holds(r, j, r.links[k].offset)
  {
    SafeHeaded(s, t);
    AddedHolds(s, t, changed, start, stop, k, j);
    hide Safe, Headed, Granted, LogicalSearch, LogicalAdded, LogicalOf;
    assert 1 <= s.sectorOffset;
    var r, n := LogicalAdded(s, t, changed, start, stop), 3 + |Opened(t.links, changed)|;
    if j == n {
      if k < |t.links| {
        GrantedClear(s, t, changed, start, stop, k);
      }
    } else {
      assert HoldsNone(t, r.links[k].offset);
    }
  }

  /** Deleting never brings a boot record and data together. */
  lemma DeleteClear(t: Table, i: nat)
    requires Headed(t) && i < t.Size() && LinksClear(t)
    ensures |DeleteFrom(t, i).mbr| == 4 && LinksClear(DeleteFrom(t, i))
  {
    var r := DeleteFrom(t, i);
    SafeShape(t);
    DeletedSize(t, i);
    hide Headed, LogicalOf, DeleteFrom, TakesLogicals, Before;
    forall k, j | 0 <= k < |r.links| && 0 <= j < r.Size() ensures !Holds(r, j, r.links[k].offset) {
      var c := OldLink(t, i, k);
      assert HoldsNone(t, t.links[c].offset);
      if r.Used(j) {
        DeleteAt(t, i, j);
        assert !Holds(t, Before(t, i, j), t.links[c].offset);
      }
    }
  }

  lemma OldLink(t: Table, i: nat, k: nat) returns (c: nat)
    requires Headed(t) && i < t.Size() && k < |DeleteFrom(t, i).links|
    ensures c < |t.links| && DeleteFrom(t, i).links[k].offset == t.links[c].offset
  {
    SafeShape(t);
    hide Headed;
    if 4 <= i {
      DeleteOffset(t, i, 4 + k);
      var d :| 4 <= d < t.Size() && DeleteFrom(t, i).Offset(4 + k) == t.Offset(d);
      c := d - 4;
    } else {
      c := k;
    }
  }

  // ----- a boot record in the middle of a partition

  /** Partitions at 126 to 500 and 1000 to 2000, and a third at 2010 to 3000. */
  function Overlaid(): Table {
    TwoHolds();
    LogicalAdded(WITH_DOS, Two(), false, 2010, 3000)
  }

  lemma OverlayFree(changed: bool)
    ensures WITH_DOS.Sane() && Two().links != []
    ensures LogicalSearch(WITH_DOS, Two(), changed).Free(2010, 3000)
    ensures Granted(LogicalSearch(WITH_DOS, Two(), changed), 2010, 3000)
  {
    hide SearchOf, Granted, Holding, Search.Free, Two;
    TwoHolds();
    LogicalFree(WITH_DOS, Two(), changed, [126, 1000], [500, 2000], [63, 937], 563, 2010, 3000);
  }

  /** The third boot record comes to lie 54 sectors before the end of the second partition. */
  lemma OverlaidLink()
    ensures var t := Overlaid();
      && Safe(WITH_DOS, t) && |t.links| == 3 && |Two().links| == 2 && t.links[2].offset == 1947 && t.links[2].changed
      && |t.mbr| == 4 && Holds(t, 5, 1947)
  {
    assert 2 < MOST_LINKS;
    hide *;
    TwoHolds();
    Steps();
    OverlayFree(false);
    OverlaidIs();
    MoreHolds(Two(), [126, 1000], [500, 2000], [63, 937], 2010, 3000);
    OverlaidHeld(Overlaid());
    LastMarked(WITH_DOS, Two(), 2010, 3000);
  }

  lemma LastMarked(s: Settings, t: Table, start: u32, stop: u32)
    requires s.g.Sane() && t.links != []
    ensures var r := LogicalAdded(s, t, false, start, stop).links; |t.links| < |r| ==> r[|r| - 1].changed
  {
    hide SetPartition, Data, Next;
    OpenedLength(t.links, false);
    FilledOffsets(t.links, t.base, s.g, s.dos, start, stop, s.sectorOffset, false);
  }

  lemma OverlaidHeld(t: Table)
    requires Holding(t, [126, 1000] + [2010], [500, 2000] + [3000], [63, 937] + [2010 - 63])
    ensures Safe(WITH_DOS, t) && |t.links| == 3 && t.links[2].offset == 1947 && |t.mbr| == 4 && Holds(t, 5, 1947)
  {
    hide Safe, LogicalOf;
    SafeHeaded(WITH_DOS, t);
    assert Held(t.links[1], 1000, 2000, 937) && Held(t.links[2], 2010, 3000, 1947);
    ExactHere(1000, 2000);
  }

  /** The editor makes these tables on an empty disk; writing them puts the boot record on that sector. */
  method Overlay(disk: Disk) returns (e: Editor, after: Disk)
    requires Tables(disk)
    ensures e.Valid() && |e.Model().links| == 3 && Holds(e.Model(), 5, 1947)
    ensures 1947 in after && after[1947] == e.Model().links[2].slots
  {
    hide LogicalSearch, Search.Free, LogicalAdded, Safe, Two, Overlaid, Holds, Extended, One;
    Steps();
    e := MakeExtended();
    FirstHolds(e.links[e.partitions].changed);
    AddFree(e, 126, 500);
    SecondFree(e.links[e.partitions].changed);
    AddFree(e, 1000, 2000);
    OverlayFree(e.links[e.partitions].changed);
    AddFree(e, 2010, 3000);
    OverlaidLink();
    OverlaidIs();
    after := e.WriteTable(disk);
  }

  lemma OverlaidIs()
    ensures WITH_DOS.g.Sane() && Two().links != [] && Overlaid() == LogicalAdded(WITH_DOS, Two(), false, 2010, 3000)
  {
    hide LogicalAdded, Two, Holding;
    TwoHolds();
    OverlayFree(false);
  }
}
