/**
 A run of fdisk.c in which a partition entry is taken for a pointer: the last boot
 record holds a second partition, and the partition before it is deleted.
 */
module StrayEntries {
  import opened Words
  import opened Chs
  import opened ExtendedChain
  import opened ChainFiles
  import opened MbrModel
  import opened MbrFiles
  import opened MbrEditor
  import opened OpenedTables

  const GEOMETRY := Geometry(16, 63, 100)
  const SETTINGS := Settings(GEOMETRY, true, 63, true)

  /** The first sector of the disk, which never lies after a partition. */
  const FRONT := Address(0, 1, 0)

  function Entry(kind: u8, start: u32, count: u32): Part {
    Part(0, FRONT, kind, FRONT, start, count)
  }

  const BOOT := [Entry(EXTENDED, 100, 91), NO_PART, NO_PART, NO_PART]
  const FIFTH := [Entry(LINUX_NATIVE, 1, 40), Entry(EXTENDED, 50, 41), NO_PART, NO_PART]

  /** The record of the sixth partition, with a second one where the pointer would be. */
  const SIXTH := [Entry(LINUX_NATIVE, 1, 20), Entry(LINUX_NATIVE, 25, 10), NO_PART, NO_PART]

  const DISK: Disk := map[0 := BOOT, 100 := FIFTH, 150 := SIXTH]

  /** Any disk with these records. */
  predicate Stray(disk: Disk) {
    && Tables(disk) && 0 in disk && disk[0] == BOOT
    && 100 in disk && disk[100] == FIFTH && 150 in disk && disk[150] == SIXTH
  }

  function LinkOf(offset: u32, slots: seq<Part>): Link
    requires |slots| == 4
  {
    Record(offset, slots, 0, 1, false)
  }

  function Links(): seq<Link> {
    [LinkOf(100, FIFTH), LinkOf(150, SIXTH)]
  }

  /** What the editor has in its tables. */
  function AsRead(): Table {
    Table(BOOT, Links(), 0, 100)
  }

  lemma SlotsAre()
    ensures LinkAt(100, FIFTH) == LinkOf(100, FIFTH) && LinkAt(150, SIXTH) == LinkOf(150, SIXTH)
  {
    TwoSlots(FIFTH);
    assert FirstSlot(SIXTH, true, 3) == 4;
    assert FirstSlot(SIXTH, true, 2) == 4;
    assert FirstSlot(SIXTH, true, 1) == 4;
  }

  lemma BootIs(disk: Disk)
    requires Stray(disk)
    ensures Boot(disk) == Booted(AsRead())
  {
    hide LinkAt;
    SlotsAre();
    var l, m := LinkOf(100, FIFTH), LinkOf(150, SIXTH);
    assert Next(l) == FIFTH[1] && Next(m) == SIXTH[1];
    assert [] + [l] == [l] && [l] + [m] == [l, m];
    assert ReadFrom(disk, 100, Next(m), [l, m]) == Read([l, m]);
    assert ReadFrom(disk, 100, Next(l), [l]) == ReadFrom(disk, 100, Next(m), [l, m]);
    assert ReadFrom(disk, 100, BOOT[0], []) == ReadFrom(disk, 100, Next(l), [l]);
  }

  lemma Placements()
    ensures SETTINGS.Sane() && SETTINGS.Total() == 100800 && Calculate(GEOMETRY, FRONT) == 0
    ensures AsRead().Size() == 6 && AsRead().At(0) == Logical(100, 91, EXTENDED, FRONT, FRONT)
    ensures AsRead().At(4) == Logical(101, 40, LINUX_NATIVE, FRONT, FRONT)
    ensures AsRead().At(5) == Logical(151, 20, LINUX_NATIVE, FRONT, FRONT)
    ensures forall i :: 1 <= i < 4 ==> !AsRead().Used(i)
  {
  }

  /** Nothing else is wrong with these tables. */
  lemma StrayFit(disk: Disk)
    requires Stray(disk)
    ensures Fit(SETTINGS, disk)
  {
    hide Calculate, LogicalOf, Settings.Total, Settings.Sane, Links;
    BootIs(disk);
    Placements();
    var t := AsRead();
    forall i | 0 <= i < t.Size() && t.Used(i) ensures Placed(SETTINGS, t.At(i)) && i in {0, 4, 5} {
    }
    LinkOffsets();
  }

  lemma LinkOffsets()
    ensures AsRead().Offset(4) == 100 && AsRead().Offset(5) == 150
  {
  }

  /** The record of the fifth partition after the sixth was deleted. */
  function Misled(): Link {
    WithNext(LinkOf(100, FIFTH), Redirected(SIXTH[1]), true)
  }

  lemma MisledIs()
    ensures DeleteFrom(AsRead(), 5) == AsRead().(links := [Misled()]) && Strays(Links(), 1)
    ensures Misled().slots == [FIFTH[0], Part(0, FRONT, EXTENDED, FRONT, 25, 10), NO_PART, NO_PART]
    ensures Misled().offset == 100 && Misled().changed && !Ends([Misled()])
  {
  }

  /**
   After deleting the sixth partition and writing, the entry behind it is followed as a
   pointer, to sector 125: if that cannot be read nothing opens, and if it can there is a
   logical partition more than there was.
   */
  lemma StrayFollowed(disk: Disk)
    requires Stray(disk)
    ensures var after := WriteTables(disk, DeleteFrom(AsRead(), 5), false);
      && Tables(after)
      && (125 !in disk ==> Boot(after) == Failed)
      && (Boot(after).Booted? ==> |DeleteFrom(AsRead(), 5).links| == 1 < |Boot(after).t.links|)
  {
    hide Misled, LinkAt;
    MisledIs();
    var m := Misled();
    var after := WriteTables(disk, DeleteFrom(AsRead(), 5), false);
    assert [m][..|[m]| - 1] == [];
    assert Write(disk, [m]) == disk[m.offset := m.slots];
    assert after == disk[100 := m.slots];
    TwoSlots(m.slots);
    var l := LinkAt(100, m.slots);
    MisledLink();
    assert [] + [l] == [l];
    assert ReadFrom(after, 100, BOOT[0], []) == ReadFrom(after, 100, Next(l), [l]);
    if 125 in disk {
      var q := LinkAt(125, disk[125]);
      LinkOffset(125, disk[125]);
      assert ReadFrom(after, 100, Next(l), [l]) == ReadFrom(after, 100, Next(q), [l] + [q]);
      assert Linked(l, q, 100);
      ReadConnected(after, 100, Next(q), [l] + [q]);
    }
  }

  lemma MisledLink()
    ensures var l := LinkAt(100, Misled().slots); l.offset == 100 && Next(l) == Part(0, FRONT, EXTENDED, FRONT, 25, 10)
  {
    MisledIs();
    TwoSlots(Misled().slots);
  }

  /** The same, run by the program: once the tables are written it cannot be started on the disk again. */
  method LoseTables() returns (e: Editor, after: Disk, ok: bool, r: Editor)
    ensures e.Valid() && e.Model() == DeleteFrom(AsRead(), 5) && |e.Model().links| == 1
    ensures after == WriteTables(DISK, e.Model(), false) && !ok
  {
    hide Safe, Boot, WriteTables, Fit, Opened, DeleteFrom;
    var started;
    started, e := Start(GEOMETRY, DISK);
    BootIs(DISK);
    StrayFit(DISK);
    FitIff(SETTINGS, DISK);
    SameSafe(SETTINGS, e.Model(), AsRead());
    AsReadIs();
    e.DeletePartition(5);
    after := e.WriteTable(DISK);
    StrayFollowed(DISK);
    MisledIs();
    ok, r := Start(GEOMETRY, after);
  }

  lemma AsReadIs()
    ensures AsRead().Size() == 6 && AsRead().base == 100 && AsRead().extIndex == 0 && |AsRead().mbr| == 4
  {
  }
}
