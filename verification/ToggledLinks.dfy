/**
 A run of fdisk.c in which a partition is lost: after the DOS compatibility flag
 is toggled, a new link may land on the sector of an old one.
 */
module ToggledLinks {
  import opened Words
  import opened Chs
  import opened ExtendedChain
  import opened ChainFiles
  import opened MadeChains
  import opened GapModel
  import opened MbrModel
  import opened MbrFiles

  const GEOMETRY := Geometry(16, 63, 100)
  const WITH_DOS := Settings(GEOMETRY, true, 63, false)
  const WITHOUT_DOS := Settings(GEOMETRY, false, 1, false)

  const EMPTY := Table(NO_SLOTS, [], 0, 0)

  /** An extended partition, two logical ones, and a third once the flag is toggled. */
  function Extended(): Table {
    PrimaryAdded(WITH_DOS, EMPTY, 0, EXTENDED, 63, 100000)
  }

  /** The extended partition with logical ones at these sectors, and their links at those. */
  predicate Holding(t: Table, starts: seq<u32>, stops: seq<u32>, tables: seq<u32>) {
    && Safe(WITH_DOS, t) && t.base == 63 && t.extIndex == 0
    && t.At(0).kind == EXTENDED && t.At(0).start == 63 && t.At(0).count == 99938
    && (forall i :: 1 <= i < 4 ==> !t.Used(i))
    && 0 < |t.links| == |starts| == |stops| == |tables|
    && forall k :: 0 <= k < |starts| ==> Held(t.links[k], starts[k], stops[k], tables[k])
  }

  predicate Held(l: Link, start: u32, stop: u32, table: u32) {
    && start <= stop <= 100000 && LogicalOf(l) == NewLogical(GEOMETRY, true, start, stop) && l.offset == table
  }

  lemma SaneSettings()
    ensures WITH_DOS.Sane() && WITHOUT_DOS.Sane() && WITH_DOS.Total() == 100800 && GEOMETRY.FullBits() == 1032192
  {
  }

  lemma ExtendedHolds()
    ensures WITH_DOS.Sane() && SearchOf(WITH_DOS, EMPTY, 0).Free(63, 100000)
    ensures Granted(SearchOf(WITH_DOS, EMPTY, 0), 63, 100000)
    ensures var t := Extended();
      && Safe(WITH_DOS, t) && t.base == 63 && t.extIndex == 0 && t.links == [Record(63, NO_SLOTS, 0, 1, true)]
      && t.At(0).kind == EXTENDED && t.At(0).start == 63 && t.At(0).count == 99938
      && (forall i :: 1 <= i < 4 ==> !t.Used(i))
  {
    hide SetHsc, Calculate, SearchOf, Granted, Search.Free, FirstOf;
    SaneSettings();
    assert Safe(WITH_DOS, EMPTY);
    FreeStretch(WITH_DOS, EMPTY, 0, 63, 100000);
    SearchShape(WITH_DOS, EMPTY, 0);
    FreeGranted(SearchOf(WITH_DOS, EMPTY, 0), 63, 100000);
    AddPrimarySafe(WITH_DOS, EMPTY, 0, EXTENDED, 63, 100000);
  }

  /** The addresses on so small a disk are exact. */
  lemma ExactHere(start: u32, stop: u32)
    requires start <= stop <= 100000
    ensures var l := NewLogical(GEOMETRY, true, start, stop);
      && l.start == start && l.count == stop - start + 1 && l.kind == LINUX_NATIVE
      && FirstOf(GEOMETRY, l.chs, l.start) == l.start
  {
    hide SetHsc, Calculate, FirstOf, Mod;
    SaneSettings();
    FirstOfWritten(GEOMETRY, true, start, stop, LINUX_NATIVE, 0);
  }

  /** What the search sees of such a table when it is opened for a new logical partition. */
  lemma OpenedHolds(t: Table, changed: bool, starts: seq<u32>, stops: seq<u32>, tables: seq<u32>, i: nat)
    requires Holding(t, starts, stops, tables) && i < OpenTable(t, changed).Size()
    ensures var o := OpenTable(t, changed);
      && o.Size() == 5 + |starts| && o.mbr == t.mbr && o.base == 63 && o.extIndex == 0
      && (i < 4 || i == 4 + |starts| ==> !o.HoldsData(i) && o.Offset(i) == 0)
      && (4 <= i < 4 + |starts| ==>
            Held(t.links[i - 4], starts[i - 4], stops[i - 4], tables[i - 4])
            && o.At(i) == LogicalOf(t.links[i - 4]) && o.Offset(i) == tables[i - 4])
  {
    hide Safe, NewLogical;
    SafeHeaded(WITH_DOS, t);
    assert Held(t.links[0], starts[0], stops[0], tables[0]);
    ExactHere(starts[0], stops[0]);
    EmptyFifth(t.links[0]);
    BlankLink(changed);
    EmptyFifth(Record(0, NO_SLOTS, 0, 1, changed));
    assert i < 4 ==> OpenTable(t, changed).At(i) == t.At(i) && (1 <= i ==> !t.Used(i));
    assert 4 <= i < 4 + |starts| ==> Held(t.links[i - 4], starts[i - 4], stops[i - 4], tables[i - 4]);
  }

  /** Sectors that no partition and no link of the table meets are free, so asking for them is granted. */
  lemma LogicalFree(s: Settings, t: Table, changed: bool, starts: seq<u32>, stops: seq<u32>, tables: seq<u32>,
                    rest: u32, start: u32, stop: u32)
    requires s == WITH_DOS || s == WITHOUT_DOS
    requires Holding(t, starts, stops, tables) && |starts| < MOST_LINKS
    requires 63 + s.sectorOffset <= rest < start <= stop <= 100000
    requires forall k :: 0 <= k < |starts| ==>
      && (stops[k] < start || stop < starts[k]) && (tables[k] < start || stop < tables[k])
      && (stops[k] + s.sectorOffset <= rest || rest < starts[k])
      && (tables[k] + s.sectorOffset <= rest || rest < tables[k])
    ensures s.Sane() && t.links != [] && LogicalSearch(s, t, changed).Free(start, stop)
    ensures Granted(LogicalSearch(s, t, changed), start, stop)
  {
    hide SetHsc, Calculate, FirstOf, SearchOf, Granted, Safe, Search.Free, LogicalOf, NewLogical;
    SaneSettings();
    SafeHere(s, t);
    OpenSearchable(s, t, changed);
    var o, n := OpenTable(t, changed), 3 + |Opened(t.links, changed)|;
    OpenedHolds(t, changed, starts, stops, tables, 0);
    forall i | 0 <= i < o.Size() ensures Exact(s, o, i) && Leaves(o, n, i, start, stop) && Rests(s, o, n, i, rest) {
      OpenedHolds(t, changed, starts, stops, tables, i);
      if 4 <= i < 4 + |starts| {
        ExactHere(starts[i - 4], stops[i - 4]);
      }
    }
    LogicalLimits(s, o, n);
    FreeGap(s, o, n, rest, start, stop);
    SearchShape(s, o, n);
    FreeGranted(SearchOf(s, o, n), start, stop);
  }

  lemma SafeHere(s: Settings, t: Table)
    requires (s == WITH_DOS || s == WITHOUT_DOS) && Safe(WITH_DOS, t)
    ensures s.Sane() && Safe(s, t) && Searchable(s, t)
  {
    SaneSettings();
    hide Headed, Exclusive, Calculate;
    SafeHeaded(WITH_DOS, t);
    forall i | 0 <= i < t.Size() && t.Used(i) ensures Placed(s, t.At(i)) {
      assert Placed(WITH_DOS, t.At(i));
    }
    SafeSearchable(s, t);
  }

  lemma LogicalLimits(s: Settings, o: Table, n: nat)
    requires s.Sane() && |o.mbr| == 4 && o.extIndex == 0 && 4 < n && o.base == 63 && s.sectorOffset <= 63
    requires o.At(0).start == 63 && o.At(0).count == 99938
    ensures var q := SearchOf(s, o, n); q.lowest == 63 + s.sectorOffset && q.limit == 100000 && q.extra == 1
  {
  }

  /** The first logical partition goes into the fifth place. */
  lemma FirstHolds(changed: bool)
    ensures Extended().links != [] && WITH_DOS.Sane()
    ensures LogicalSearch(WITH_DOS, Extended(), changed).Free(126, 500)
    ensures Granted(LogicalSearch(WITH_DOS, Extended(), changed), 126, 500)
    ensures Holding(LogicalAdded(WITH_DOS, Extended(), false, 126, 500), [126], [500], [63])
  {
    hide SetHsc, Calculate, FirstOf, SearchOf, Granted, Safe, Search.Free, NewLogical, Extended, Filled, SetPartition;
    ExtendedHolds();
    SaneSettings();
    var t := Extended();
    SafeHere(WITH_DOS, t);
    BlankLink(true);
    EmptyFifth(Record(63, NO_SLOTS, 0, 1, true));
    assert OpenTable(t, changed) == t && OpenTable(t, false) == t;
    FirstLimits(t);
    forall i | 0 <= i < t.Size()
      ensures Exact(WITH_DOS, t, i) && Leaves(t, 4, i, 126, 500) && Rests(WITH_DOS, t, 4, i, 126)
    {
      assert 1 <= i < 4 ==> !t.Used(i);
    }
    FreeGap(WITH_DOS, t, 4, 126, 126, 500);
    SearchShape(WITH_DOS, t, 4);
    FreeGranted(SearchOf(WITH_DOS, t, 4), 126, 500);
    AddLogicalSafe(WITH_DOS, t, false, 126, 500);
    ExactHere(126, 500);
    FilledOffset(WITH_DOS, t, false, 126, 500, 0);
    var r := LogicalAdded(WITH_DOS, t, false, 126, 500);
    assert r.At(4) == LogicalOf(r.links[0]);
    assert Held(r.links[0], 126, 500, 63);
    assert forall i :: 0 <= i < 4 ==> r.At(i) == t.At(i) && (1 <= i ==> !t.Used(i));
  }

  lemma FirstLimits(t: Table)
    requires WITH_DOS.Sane() && |t.mbr| == 4 && t.extIndex == 0 && t.base == 63
    requires t.At(0).start == 63 && t.At(0).count == 99938
    ensures var q := SearchOf(WITH_DOS, t, 4); q.lowest == 126 && q.limit == 100000 && q.extra == 0
  {
  }

  /** Further logical partitions come behind it, their links 63 sectors before them. */
  lemma MoreHolds(t: Table, starts: seq<u32>, stops: seq<u32>, tables: seq<u32>, start: u32, stop: u32)
    requires WITH_DOS.Sane() && Holding(t, starts, stops, tables) && |starts| < MOST_LINKS
    requires 126 < start <= stop <= 100000 && Granted(LogicalSearch(WITH_DOS, t, false), start, stop)
    ensures Holding(LogicalAdded(WITH_DOS, t, false, start, stop),
                    starts + [start], stops + [stop], tables + [start - 63])
  {
    hide SetHsc, Calculate, SearchOf, Granted, Safe, NewLogical, Filled, LogicalOf;
    OpenedHolds(t, false, starts, stops, tables, 0);
    AddLogicalSafe(WITH_DOS, t, false, start, stop);
    SafeHeaded(WITH_DOS, t);
    var r := LogicalAdded(WITH_DOS, t, false, start, stop);
    FilledOffset(WITH_DOS, t, false, start, stop, 0);
    forall k | 0 <= k <= |starts|
      ensures Held(r.links[k], (starts + [start])[k], (stops + [stop])[k], (tables + [start - 63])[k])
    {
      LogicalAt(WITH_DOS, t, false, start, stop, 4 + k);
      FilledOffset(WITH_DOS, t, false, start, stop, k);
      assert k < |starts| ==> Held(t.links[k], starts[k], stops[k], tables[k]);
    }
    assert forall i :: 0 <= i < 4 ==> r.At(i) == t.At(i) && (1 <= i ==> !t.Used(i));
  }

  function One(): Table {
    ExtendedHolds();
    LogicalAdded(WITH_DOS, Extended(), false, 126, 500)
  }

  function Two(): Table {
    FirstHolds(false);
    LogicalAdded(WITH_DOS, One(), false, 1000, 2000)
  }

  /** The table after the flag was toggled. */
  function Three(): Table {
    TwoHolds();
    LogicalAdded(WITHOUT_DOS, Two(), false, 938, 999)
  }

  lemma SecondFree(changed: bool)
    ensures WITH_DOS.Sane() && One().links != []
    ensures LogicalSearch(WITH_DOS, One(), changed).Free(1000, 2000)
    ensures Granted(LogicalSearch(WITH_DOS, One(), changed), 1000, 2000)
  {
    hide SearchOf, Granted, Holding, Search.Free;
    FirstHolds(false);
    LogicalFree(WITH_DOS, One(), changed, [126], [500], [63], 999, 1000, 2000);
  }

  lemma TwoHolds()
    ensures WITH_DOS.Sane() && Holding(Two(), [126, 1000], [500, 2000], [63, 937])
  {
    hide SearchOf, LogicalSearch, Granted, Holding, Search.Free, LogicalAdded, One, Two;
    OneHolds();
    SecondFree(false);
    MoreHolds(One(), [126], [500], [63], 1000, 2000);
    TwoIs();
    assert [126] + [1000] == [126, 1000] && [500] + [2000] == [500, 2000] && [63] + [937] == [63, 937];
  }

  lemma OneHolds()
    ensures WITH_DOS.Sane() && One().links != [] && Holding(One(), [126], [500], [63])
  {
    hide Holding, Granted, LogicalSearch, Search.Free;
    FirstHolds(false);
  }

  lemma TwoIs()
    ensures WITH_DOS.g.Sane() && One().links != []
    ensures Two() == LogicalAdded(WITH_DOS, One(), false, 1000, 2000)
  {
    hide Holding, LogicalAdded, One;
    OneHolds();
  }

  lemma ThirdFree(changed: bool)
    ensures WITHOUT_DOS.Sane() && Two().links != []
    ensures LogicalSearch(WITHOUT_DOS, Two(), changed).Free(938, 999)
    ensures Granted(LogicalSearch(WITHOUT_DOS, Two(), changed), 938, 999)
  {
    hide SearchOf, Granted, Holding, Search.Free, Two;
    TwoHolds();
    LogicalFree(WITHOUT_DOS, Two(), changed, [126, 1000], [500, 2000], [63, 937], 64, 938, 999);
  }

  /** The search grants sectors whose link comes to lie where another link is. */
  lemma SharedSector()
    ensures WITHOUT_DOS.Sane() && Two().links != []
    ensures LogicalSearch(WITHOUT_DOS, Two(), false).Free(938, 999)
    ensures Granted(LogicalSearch(WITHOUT_DOS, Two(), false), 938, 999)
    ensures Safe(WITHOUT_DOS, Three()) && |Two().links| == 2 && |Three().links| == 3
    ensures Distinct(Two().links) && Three().links[1].offset == 937 && Three().links[2].offset == 937
  {
    hide SearchOf, Granted, Safe, LogicalOf, NewLogical, Filled, Two, Search.Free;
    TwoHolds();
    var t := Two();
    SafeHere(WITHOUT_DOS, t);
    assert Held(t.links[0], 126, 500, 63) && Held(t.links[1], 1000, 2000, 937);
    ThirdFree(false);
    OpenedHolds(t, false, [126, 1000], [500, 2000], [63, 937], 0);
    AddLogicalSafe(WITHOUT_DOS, t, false, 938, 999);
    FilledOffset(WITHOUT_DOS, t, false, 938, 999, 1);
    FilledOffset(WITHOUT_DOS, t, false, 938, 999, 2);
  }

  lemma OneMade()
    ensures AllMade(Extended().links) && AllMade(One().links) && AllMarked(One().links)
  {
    hide AllMade, AllMarked, Filled, Granted, SearchOf, Holding, PrimaryAdded, LogicalAdded;
    NoneMade();
    ExtendedHolds();
    PrimaryTends(WITH_DOS, EMPTY, 0, EXTENDED, 63, 100000);
    LogicalTends(WITH_DOS, Extended(), false, 126, 500);
  }

  lemma TwoMade()
    ensures AllMade(Two().links) && AllMarked(Two().links)
  {
    hide AllMade, AllMarked, Granted, SearchOf, Holding, LogicalAdded, One;
    OneMade();
    SecondFree(false);
    LogicalTends(WITH_DOS, One(), false, 1000, 2000);
  }

  lemma ThreeMade()
    ensures AllMade(Three().links)
  {
    hide AllMade, AllMarked, Granted, SearchOf, Holding, LogicalAdded, Two;
    TwoMade();
    SharedSector();
    LogicalTends(WITHOUT_DOS, Two(), false, 938, 999);
  }

  /** Once the tables are written, the partition at 1000..2000 cannot be read back. */
  lemma ToggledPartitionLost(disk: Disk)
    requires Tables(disk) && Tracked(Two().links, disk)
    ensures |Three().links| == 3 && Tables(Write(disk, Three().links))
    ensures ReadFrom(Write(disk, Three().links), 63, Three().mbr[0], []) ==
      Read(Clean(Three().links[..1]) + [Unmarked(Three().links[2])])
    ensures LogicalOf(Three().links[1]).start == 1000
  {
    hide SearchOf, Granted, Safe, NewLogical, Filled, AllMade, Tidy, Two, Tracked, LogicalOf, Search.Free;
    SharedSector();
    TwoHolds();
    ThreeMade();
    AllTidy(Three().links);
    var t := Two();
    TwoHeaded(t);
    AddLoses(t.links, 63, t.mbr[0], GEOMETRY, false, 938, 999, 1, false, disk, 1);
    LogicalAt(WITHOUT_DOS, t, false, 938, 999, 5);
    assert Held(t.links[1], 1000, 2000, 937);
    ExactHere(1000, 2000);
  }

  lemma TwoHeaded(t: Table)
    requires Safe(WITH_DOS, t) && t.base == 63 && t.extIndex == 0
    ensures Headed(t) && Chain(t.links, 63) && t.mbr[0].kind == EXTENDED && t.mbr[0].start == 63
  {
  }

  /** The mark of a buffer that was not in use before does not matter. */
  lemma AnyMark(s: Settings, t: Table, changed: bool, start: u32, stop: u32)
    requires s.g.Sane() && t.links != []
    ensures LogicalAdded(s, t, changed, start, stop) == LogicalAdded(s, t, false, start, stop)
  {
    hide SetPartition, Data, Next;
    var o, p := Opened(t.links, changed), Opened(t.links, false);
    assert o[..|t.links|] == p[..|t.links|];
    assert |o| == |p| == |t.links| + 1 ==> o[..|o| - 2] == p[..|o| - 2];
  }
}
