/**
 The tables of a whole disk on the disk (write_table and get_boot in fdisk.c):
 what edits keep of their layout, and what comes back when they are read.
 */
module MbrFiles {
  import opened Words
  import opened Chs
  import opened ExtendedChain
  import opened ChainFiles
  import opened MadeChains
  import opened GapModel
  import opened MbrModel

  /** No two links share a sector, because each but the first lies `hop` sectors before its partition. */
  predicate Neat(t: Table, hop: nat) {
    Spaced(t.links, t.base, hop) && Distinct(t.links)
  }

  /**
   What edits keep whatever the settings are: the layout and the marks of the buffers,
   an empty last pointer, and which disks the links are tracked on.
   */
  ghost predicate Tends(t: Table, r: Table) {
    && (AllMade(t.links) ==> AllMade(r.links))
    && (AllMarked(t.links) ==> AllMarked(r.links))
    && (Ended(t.links) ==> Ended(r.links))
    && forall disk :: MostTracked(t.links, disk) ==> MostTracked(r.links, disk)
  }

  // ----- deleting

  lemma DeleteTends(t: Table, i: nat)
    requires Headed(t) && i < t.Size()
    ensures Tends(t, DeleteFrom(t, i))
  {
    hide AllMade, AllMarked, Chain, Delete, MostTracked, Ended, Ends, Strays;
    NoneMade();
    if 4 <= i {
      HeadedChain(t);
      DeleteEndsIff(t.links, t.base, i - 4);
      forall disk | MostTracked(t.links, disk) ensures MostTracked(DeleteFrom(t, i).links, disk) {
        DeleteMost(t.links, t.base, i - 4, disk);
      }
      if AllMade(t.links) {
        DeleteMade(t.links, t.base, i - 4);
      }
      if AllMarked(t.links) {
        DeleteMarked(t.links, t.base, i - 4);
      }
    }
  }

  lemma NoneMade()
    ensures AllMade([]) && AllMarked([]) && Ended([]) && forall disk :: MostTracked([], disk)
  {
  }

  lemma DeleteNeat(t: Table, i: nat, hop: nat)
    requires Headed(t) && i < t.Size() && Neat(t, hop)
    ensures Neat(DeleteFrom(t, i), hop)
  {
    hide Chain, Delete, Leads;
    if 4 <= i {
      HeadedChain(t);
      DeleteSpaced(t.links, t.base, i - 4, hop);
      DeleteOffsets(t.links, t.base, i - 4);
    }
  }

  // ----- adding

  lemma PrimaryTends(s: Settings, t: Table, n: nat, kind: u8, start: u32, stop: u32)
    requires s.g.Sane() && |t.mbr| == 4 && n < 4
    ensures Tends(t, PrimaryAdded(s, t, n, kind, start, stop))
  {
    hide Made, SetPartition, OnDisk;
    HeadMade(start);
  }

  lemma HeadMade(start: u32)
    ensures Made(Record(start, NO_SLOTS, 0, 1, true))
  {
  }

  lemma PrimaryNeat(s: Settings, t: Table, n: nat, kind: u8, start: u32, stop: u32, hop: nat)
    requires s.g.Sane() && |t.mbr| == 4 && n < 4 && Neat(t, hop)
    ensures Neat(PrimaryAdded(s, t, n, kind, start, stop), hop)
  {
    hide Leads, SetPartition;
  }

  lemma LogicalTends(s: Settings, t: Table, changed: bool, start: u32, stop: u32)
    requires s.g.Sane() && t.links != []
    ensures Tends(t, LogicalAdded(s, t, changed, start, stop))
  {
    hide AllMade, AllMarked, Filled, Ended, Ends, MostTracked, Tracked;
    var r := LogicalAdded(s, t, changed, start, stop);
    AddEndsIff(t.links, t.base, s.g, s.dos, start, stop, s.sectorOffset, changed);
    forall disk | MostTracked(t.links, disk) ensures MostTracked(r.links, disk) {
      AddTracked(t.links, t.base, s.g, s.dos, start, stop, s.sectorOffset, changed, disk);
      TrackedMost(r.links, disk);
    }
    if AllMade(t.links) {
      AddMade(t.links, t.base, s.g, s.dos, start, stop, s.sectorOffset, changed);
    }
    if AllMarked(t.links) {
      AddMarked(t.links, t.base, s.g, s.dos, start, stop, s.sectorOffset, changed);
    }
  }

  lemma TrackedMost(links: seq<Link>, disk: Disk)
    ensures Tracked(links, disk) <==>
      MostTracked(links, disk) && (links != [] ==> links[|links| - 1].changed || OnDisk(links[|links| - 1], disk))
  {
  }

  /** What the search grants starts where no logical partition does. */
  lemma GrantedElsewhere(s: Settings, t: Table, changed: bool, start: u32, stop: u32, k: nat)
    requires Safe(s, t) && s.Sane() && t.base != 0 && t.links != [] && k < |t.links|
    requires Granted(LogicalSearch(s, t, changed), start, stop)
    ensures LogicalOf(t.links[k]).kind != 0 ==> LogicalOf(t.links[k]).start != start
    ensures |t.links| < |Opened(t.links, changed)| ==> t.base + s.sectorOffset < start
  {
    hide SearchOf, Granted, Calculate, LogicalOf, Opened, Headed, Exclusive;
    SafeHeaded(s, t);
    SafeSearchable(s, t);
    OpenSearchable(s, t, changed);
    OpenShape(t, changed);
    OpenedLength(t.links, changed);
    var o, n := OpenTable(t, changed), 3 + |Opened(t.links, changed)|;
    GrantedBounds(s, o, n, start, stop);
    if LogicalOf(t.links[k]).kind != 0 {
      assert t.At(k + 4) == o.At(k + 4) == LogicalOf(t.links[k]);
      assert t.Used(k + 4) && Placed(s, t.At(k + 4));
      GrantedApart(s, o, n, start, stop, k + 4, Logical(start, stop - start + 1, 0, NO_ADDRESS, NO_ADDRESS));
    }
  }

  /** As long as the distance from a link to its partition stays the same, links never share a sector. */
  lemma LogicalNeat(s: Settings, t: Table, changed: bool, start: u32, stop: u32)
    requires Safe(s, t) && s.Sane() && t.base != 0 && t.links != [] && |t.links| < MOST_LINKS
    requires Granted(LogicalSearch(s, t, changed), start, stop) && Neat(t, s.sectorOffset)
    ensures Neat(LogicalAdded(s, t, changed, start, stop), s.sectorOffset)
  {
    hide Granted, SearchOf, LogicalOf, Filled, Opened, Safe, Spaced, Distinct;
    SafeHeaded(s, t);
    HeadedChain(t);
    forall k | 0 <= k < |t.links|
      ensures LogicalOf(t.links[k]).kind != 0 ==> LogicalOf(t.links[k]).start != start
    {
      GrantedElsewhere(s, t, changed, start, stop, k);
    }
    GrantedElsewhere(s, t, changed, start, stop, 0);
    AddSpaced(t.links, t.base, s.g, s.dos, start, stop, s.sectorOffset, changed);
  }

  // ----- every edit

  /** What an edit at distance `hop` keeps. */
  ghost predicate Progresses(t: Table, r: Table, hop: nat) {
    Tends(t, r) && (Neat(t, hop) ==> Neat(r, hop)) && SpansKept(t, r)
  }

  /** Link pointers still cover exactly the next link and its partition. */
  predicate SpansKept(t: Table, r: Table) {
    AllSpan(t.links, t.base) ==> AllSpan(r.links, r.base)
  }

  lemma DeleteSpansKept(t: Table, i: nat)
    requires |t.mbr| == 4 && i < t.Size()
    ensures SpansKept(t, DeleteFrom(t, i))
  {
    hide Delete;
    if 4 <= i && AllSpan(t.links, t.base) {
      DeleteSpans(t.links, t.base, i - 4);
    }
  }

  lemma PrimarySpansKept(s: Settings, t: Table, n: nat, kind: u8, start: u32, stop: u32)
    requires s.g.Sane() && |t.mbr| == 4 && n < 4
    ensures SpansKept(t, PrimaryAdded(s, t, n, kind, start, stop))
  {
    hide SetPartition;
  }

  lemma LogicalSpansKept(s: Settings, t: Table, changed: bool, start: u32, stop: u32)
    requires Safe(s, t) && s.Sane() && t.base != 0 && t.links != []
    requires Granted(LogicalSearch(s, t, changed), start, stop)
    ensures SpansKept(t, LogicalAdded(s, t, changed, start, stop))
  {
    hide Safe, Granted, LogicalSearch, Filled, Opened, AllSpan;
    GrantedElsewhere(s, t, changed, start, stop, 0);
    GrantedOnDisk(s, t, changed, start, stop);
    if AllSpan(t.links, t.base) {
      AddSpans(t.links, t.base, s.g, s.dos, start, stop, s.sectorOffset, changed);
    }
  }

  lemma GrantedOnDisk(s: Settings, t: Table, changed: bool, start: u32, stop: u32)
    requires Safe(s, t) && s.Sane() && t.base != 0 && t.links != []
    requires Granted(LogicalSearch(s, t, changed), start, stop)
    ensures start <= stop < U32 - 1
  {
    hide SearchOf, Granted, Calculate, LogicalOf, Opened, Headed, Exclusive;
    SafeHeaded(s, t);
    SafeSearchable(s, t);
    OpenSearchable(s, t, changed);
    GrantedBounds(s, OpenTable(t, changed), 3 + |Opened(t.links, changed)|, start, stop);
    CylinderPositive(s.g);
    Monotone(CYLINDER_LIMIT, 1, s.g.Cylinder());
  }

  lemma DeleteProgresses(t: Table, i: nat, hop: nat)
    requires Headed(t) && i < t.Size()
    ensures Progresses(t, DeleteFrom(t, i), hop)
  {
    DeleteSpansKept(t, i);
    hide Headed, Neat, Tends, DeleteFrom, SpansKept;
    DeleteTends(t, i);
    if Neat(t, hop) {
      DeleteNeat(t, i, hop);
    }
  }

  lemma PrimaryProgresses(s: Settings, t: Table, n: nat, kind: u8, start: u32, stop: u32)
    requires s.g.Sane() && |t.mbr| == 4 && n < 4
    ensures Progresses(t, PrimaryAdded(s, t, n, kind, start, stop), s.sectorOffset)
  {
    hide Neat, Tends, PrimaryAdded, SpansKept;
    PrimarySpansKept(s, t, n, kind, start, stop);
    PrimaryTends(s, t, n, kind, start, stop);
    if Neat(t, s.sectorOffset) {
      PrimaryNeat(s, t, n, kind, start, stop, s.sectorOffset);
    }
  }

  lemma LogicalProgresses(s: Settings, t: Table, changed: bool, start: u32, stop: u32)
    requires Safe(s, t) && s.Sane() && t.base != 0 && t.links != [] && |t.links| < MOST_LINKS
    requires Granted(LogicalSearch(s, t, changed), start, stop)
    ensures Progresses(t, LogicalAdded(s, t, changed, start, stop), s.sectorOffset)
  {
    hide Neat, Tends, LogicalAdded, Safe, LogicalSearch, Granted, SpansKept;
    LogicalSpansKept(s, t, changed, start, stop);
    LogicalTends(s, t, changed, start, stop);
    if Neat(t, s.sectorOffset) {
      LogicalNeat(s, t, changed, start, stop);
    }
  }

  // ----- writing and reading

  /** write_table: the primary table, if it is marked, and the marked boot records. */
  function WriteTables(disk: Disk, t: Table, bootChanged: bool): Disk {
    Write(if bootChanged then disk[0 := t.mbr] else disk, t.links)
  }

  /** The first extended entry from `i` on whose start is not 0; 4 if there is none. */
  function FirstExtended(boot: seq<Part>, i: nat): (k: nat)
    requires |boot| == 4 && i <= 4
    ensures i <= k <= 4
    ensures forall j :: i <= j < k ==> boot[j].kind != EXTENDED || boot[j].start == 0
    ensures k < 4 ==> boot[k].kind == EXTENDED && boot[k].start != 0
    decreases 4 - i
  {
    if i == 4 || (boot[i].kind == EXTENDED && boot[i].start != 0) then i else FirstExtended(boot, i + 1)
  }

  datatype Booting = Failed | Booted(t: Table)

  /** The tables that get_boot takes over from a disk. */
  function Boot(disk: Disk): Booting
    requires Tables(disk)
  {
    if 0 !in disk then Failed
    else
      var boot := disk[0];
      var k := FirstExtended(boot, 0);
      if k == 4 then Booted(Table(boot, [], 0, 0))
      else
        match ReadFrom(disk, boot[k].start, boot[k], [])
        case Unreadable => Failed
        case Read(links) => Booted(Table(boot, links, k, boot[k].start))
  }

  /** The same tables; without an extended partition it does not matter which entry was the last one. */
  predicate Same(r: Table, t: Table) {
    r.mbr == t.mbr && r.links == t.links && r.base == t.base && (t.base != 0 ==> r.extIndex == t.extIndex)
  }

  lemma HeadFound(t: Table)
    requires Headed(t)
    ensures FirstExtended(t.mbr, 0) == if t.base == 0 then 4 else t.extIndex
  {
    hide Chain;
  }

  lemma {:induction false} WriteKeepsBoot(disk: Disk, links: seq<Link>)
    requires forall k :: 0 <= k < |links| ==> links[k].offset != 0
    ensures (0 in Write(disk, links) <==> 0 in disk) && (0 in disk ==> Write(disk, links)[0] == disk[0])
  {
    WriteAt(disk, links, 0);
  }

  /**
   With the primary table marked or on the disk, writing the tables and reading them gives
   them back exactly if no two links share a sector, every buffer uses the slots that
   reading chooses, what is not marked is on the disk, and the last pointer leads nowhere.
   */
  lemma TablesRoundTripIff(t: Table, disk: Disk, bootChanged: bool)
    requires Headed(t) && Tables(disk)
    requires forall k :: 0 <= k < |t.links| ==> t.links[k].offset != 0
    requires bootChanged || (0 in disk && disk[0] == t.mbr)
    ensures Tables(WriteTables(disk, t, bootChanged))
    ensures var r := Boot(WriteTables(disk, t, bootChanged));
      r.Booted? && Same(r.t, t.(links := Clean(t.links))) <==>
        Distinct(t.links) && Tidy(t.links) && Tracked(t.links, disk) && Ends(t.links)
  {
    hide Chain, ReadFrom, Distinct, Tidy, Write, FirstExtended, Clean, Tracked, Ends;
    var before := if bootChanged then disk[0 := t.mbr] else disk;
    assert Tables(before);
    WriteAt(before, t.links, 0);
    WriteKeepsBoot(before, t.links);
    HeadFound(t);
    if t.base == 0 {
      NoLinks(disk);
    } else {
      HeadedChain(t);
      TrackedBoot(t.links, disk, t.mbr);
      ChainRoundTripIff(t.links, t.base, t.mbr[t.extIndex], before);
    }
  }

  /** Writing the primary table does not matter to the links. */
  lemma TrackedBoot(links: seq<Link>, disk: Disk, boot: seq<Part>)
    requires forall k :: 0 <= k < |links| ==> links[k].offset != 0
    ensures Tracked(links, disk[0 := boot]) <==> Tracked(links, disk)
  {
    var before := disk[0 := boot];
    forall k | 0 <= k < |links| ensures OnDisk(links[k], before) <==> OnDisk(links[k], disk) {
    }
  }

  lemma NoLinks(disk: Disk)
    ensures Clean([]) == [] && Distinct([]) && Tidy([]) && Tracked([], disk) && Ends([])
  {
  }

  lemma AllTidy(links: seq<Link>)
    requires AllMade(links)
    ensures Tidy(links)
  {
    forall k | 0 <= k < |links| ensures TidyLink(links[k]) {
      MadeTidy(links[k]);
    }
  }

  lemma SafeOffsets(s: Settings, t: Table)
    requires Safe(s, t)
    ensures forall k :: 0 <= k < |t.links| ==> t.links[k].offset != 0
  {
    forall k | 0 <= k < |t.links| ensures t.links[k].offset != 0 {
      assert 0 < t.Offset(k + 4);
    }
  }

  lemma MarkedTracked(links: seq<Link>, disk: Disk)
    requires AllMarked(links)
    ensures Tracked(links, disk)
  {
  }

  lemma EndedEnds(links: seq<Link>)
    requires Ended(links)
    ensures Ends(links)
  {
  }

  /** So tables that the editor has made and kept neat always come back. */
  lemma MadeTablesReturn(s: Settings, t: Table, disk: Disk, bootChanged: bool, hop: nat)
    requires Safe(s, t) && Tables(disk) && AllMade(t.links) && AllMarked(t.links) && Ended(t.links) && Neat(t, hop)
    requires bootChanged || (0 in disk && disk[0] == t.mbr)
    ensures Tables(WriteTables(disk, t, bootChanged))
    ensures var r := Boot(WriteTables(disk, t, bootChanged)); r.Booted? && Same(r.t, t.(links := Clean(t.links)))
  {
    hide Headed, AllMade, AllMarked, Spaced, Distinct, Tidy, Tracked, Ends, Ended, Boot, Same, WriteTables, Safe;
    SafeHeaded(s, t);
    SafeOffsets(s, t);
    AllTidy(t.links);
    MarkedTracked(t.links, disk);
    EndedEnds(t.links);
    TablesRoundTripIff(t, disk, bootChanged);
  }
}
