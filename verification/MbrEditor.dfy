/** The editor of DOS partition tables (fdisk.c): its tables are arrays that every command changes in place. */
module MbrEditor {
  import opened Words
  import opened Chs
  import opened ExtendedChain
  import opened GapModel
  import opened GapSearch
  import opened ChainFiles
  import opened MadeChains
  import opened MbrModel
  import opened MbrFiles

  datatype Outcome = AlreadyDefined | Tried(gap: Gap)

  /** The part of the table scan in read_extended that picks the two slots. */
  method ScanTable(slots: seq<Part>) returns (part: nat, ext: nat)
    requires |slots| == 4
    ensures part == DataSlot(slots) && ext == NextSlot(slots)
  {
    part, ext := 4, 4; // no slot yet
    var i := 0;
    while i < 4
      invariant 0 <= i <= 4
      invariant ext == (if FirstSlot(slots, true, 0) < i then FirstSlot(slots, true, 0) else 4)
      invariant part == (if FirstSlot(slots, false, 0) < i then FirstSlot(slots, false, 0) else 4)
    {
      if slots[i].kind == EXTENDED {
        if ext == 4 {
          ext := i;
        }
      } else if slots[i].kind != 0 {
        if part == 4 {
          part := i;
        }
      }
      assert Holds(slots[i], true) <==> slots[i].kind == EXTENDED;
      i := i + 1;
    }
    if part == 4 {
      part := if ext != 0 then 0 else 1;
    }
    if ext == 4 {
      ext := if part != 0 then 0 else 1;
    }
  }

  class Editor {
    const g: Geometry
    var dos: bool
    var unit: bool
    var sectorOffset: u32
    const mbr: array<Part>   // the primary entries
    const links: array<Link> // offsets, buffers, part_table, ext_pointers and changed, from index 4 on
    var partitions: nat
    var extIndex: nat
    var extendedOffset: u32
    var bootChanged: bool    // some entry of `changed` below 4

    ghost predicate Shaped()
      reads this
    {
      mbr.Length == 4 && links.Length == MAXIMUM_PARTS && 4 <= partitions <= MAXIMUM_PARTS && extIndex < 4
    }

    ghost function Model(): Table
      requires Shaped()
      reads this, mbr, links
    {
      Table(mbr[..], links[4..partitions], extIndex, extendedOffset)
    }

    ghost function Using(): Settings
      reads this
    {
      Settings(g, dos, sectorOffset, unit)
    }

    ghost predicate Valid()
      reads this, mbr, links
    {
      Shaped() && Using().Sane() && Safe(Using(), Model())
    }

    /** An empty disk. */
    constructor (g: Geometry)
      requires Settings(g, true, 1, true).Sane()
      ensures Valid() && fresh(mbr) && fresh(links) && this.g == g
      ensures Model() == Table(NO_SLOTS, [], 0, 0) && sectorOffset == g.sectors && dos && unit
      ensures !bootChanged && forall k :: 4 <= k < MAXIMUM_PARTS ==> !links[k].changed
    {
      this.g := g;
      dos, unit, sectorOffset := true, true, g.sectors;
      mbr := new Part[4](_ => NO_PART);
      links := new Link[MAXIMUM_PARTS](_ => Record(0, NO_SLOTS, 0, 1, false));
      partitions, extIndex, extendedOffset, bootChanged := 4, 0, 0, false;
      new;
      assert mbr[..] == NO_SLOTS;
    }

    /** read_extended; `ok` is false when a sector cannot be read, which ends the program. */
    method ReadExtended(disk: Disk, i: nat) returns (ok: bool)
      requires Shaped() && i < 4 && mbr[i].kind == EXTENDED && partitions == 4 && extendedOffset == 0 && Tables(disk)
      requires forall k :: 4 <= k < MAXIMUM_PARTS ==> !links[k].changed
      modifies this`partitions, this`extIndex, this`extendedOffset, links
      ensures Shaped() && mbr[..] == old(mbr[..])
      ensures var p := old(mbr[i]);
        if p.start == 0 then ok && partitions == 4 && extendedOffset == 0 && links[..] == old(links[..])
        else
          var r := ReadFrom(disk, p.start, p, []);
          (ok <==> r.Read?) && (ok ==> Model() == Table(old(mbr[..]), r.links, i, p.start) && 4 < partitions)
    {
      hide DataSlot, NextSlot, Tables;
      extIndex := i;
      var p := mbr[i];
      if p.start == 0 {
        return true;
      }
      ghost var base, primary := p.start, p;
      while p.kind == EXTENDED
        invariant Shaped() && mbr[..] == old(mbr[..]) && extIndex == i
        invariant extendedOffset == if partitions == 4 then 0 else base
        invariant partitions == 4 ==> p == primary
        invariant forall k :: partitions <= k < MAXIMUM_PARTS ==> !links[k].changed
        invariant ReadFrom(disk, base, p, links[4..partitions]) == ReadFrom(disk, base, primary, [])
        decreases MAXIMUM_PARTS - partitions
      {
        ghost var done := links[4..partitions];
        if partitions >= MAXIMUM_PARTS {
          links[partitions - 1] := WithNext(links[partitions - 1], NO_PART, true);
          assert links[4..partitions] == done[MOST_LINKS - 1 := WithNext(done[MOST_LINKS - 1], NO_PART, true)];
          return true;
        }
        var offset := Add32(extendedOffset, p.start);
        if extendedOffset == 0 {
          extendedOffset := p.start;
        }
        if offset !in disk {
          return false;
        }
        TableShape(disk, offset);
        var part, ext := ScanTable(disk[offset]);
        links[partitions] := Record(offset, disk[offset], part, ext, links[partitions].changed);
        p := Next(links[partitions]);
        partitions := partitions + 1;
        assert links[4..partitions] == done + [LinkAt(offset, disk[offset])];
      }
      ok := true;
    }

    /** The part of get_boot that takes over the tables of a disk: the first extended partition with a start counts. */
    method GetBoot(disk: Disk) returns (ok: bool)
      requires Shaped() && partitions == 4 && extendedOffset == 0 && Tables(disk)
      requires forall k :: 4 <= k < MAXIMUM_PARTS ==> !links[k].changed
      modifies this`partitions, this`extIndex, this`extendedOffset, mbr, links
      ensures Shaped() && (ok <==> Boot(disk).Booted?)
      ensures ok ==> Same(Model(), Boot(disk).t)
    {
      if 0 !in disk {
        return false;
      }
      TableShape(disk, 0);
      ok := TakeOver(disk, disk[0]);
    }

    /** The loop of get_boot over the primary entries. */
    method TakeOver(disk: Disk, boot: seq<Part>) returns (ok: bool)
      requires Shaped() && partitions == 4 && extendedOffset == 0 && Tables(disk) && |boot| == 4
      requires forall k :: 4 <= k < MAXIMUM_PARTS ==> !links[k].changed
      modifies this`partitions, this`extIndex, this`extendedOffset, mbr, links
      ensures Shaped() && mbr[..] == boot
      ensures var k := FirstExtended(boot, 0);
        if k == 4 then ok && Model() == Table(boot, [], extIndex, 0)
        else
          var r := ReadFrom(disk, boot[k].start, boot[k], []);
          (ok <==> r.Read?) && (ok ==> Model() == Table(boot, r.links, k, boot[k].start))
    {
      hide ReadFrom, Tables;
      mbr[0], mbr[1], mbr[2], mbr[3] := boot[0], boot[1], boot[2], boot[3];
      assert mbr[..] == boot;
      ok := true;
      var i := 0;
      while i < 4 && ok
        invariant 0 <= i <= 4 && Shaped() && mbr[..] == boot
        invariant ok && partitions == 4 ==>
          (extendedOffset == 0 && FirstExtended(boot, i) == FirstExtended(boot, 0)
           && forall k :: 4 <= k < MAXIMUM_PARTS ==> !links[k].changed)
        invariant !(ok && partitions == 4) ==>
          var k := FirstExtended(boot, 0);
          k < 4 &&
          var r := ReadFrom(disk, boot[k].start, boot[k], []);
          (ok <==> r.Read?) && (ok ==> Model() == Table(boot, r.links, k, boot[k].start))
      {
        if mbr[i].kind == EXTENDED && partitions == 4 {
          ok := ReadExtended(disk, i);
        }
        i := i + 1;
      }
    }

    /** delete_partition */
    method DeletePartition(i: nat)
      requires Valid() && i < partitions
      modifies this`partitions, this`extendedOffset, this`bootChanged, mbr, links
      ensures Valid() && Model() == DeleteFrom(old(Model()), i)
      ensures bootChanged == (old(bootChanged) || i < 4)
      ensures OnlyGone(old(Model()), i, Model())
      ensures forall j :: 0 <= j < 4 && j != i ==> mbr[j] == old(mbr[j])
      ensures i < 4 ==> mbr[i].kind == 0
    {
      ghost var t := Model();
      SafeHeaded(Using(), t);
      DeleteSurvives(t, i);
      DeleteSafe(Using(), t, i);
      if i < 4 {
        bootChanged := true;
        if mbr[i].kind == EXTENDED && i == extIndex {
          partitions := 4;
          extendedOffset := 0;
        }
        mbr[i] := NO_PART;
        assert Model() == DeleteFrom(t, i);
      } else {
        DeleteLogical(i);
      }
    }

    /** The loop of delete_partition that closes the gap in the arrays. */
    method RemoveLink(i: nat)
      requires Shaped() && 4 <= i < partitions && 5 < partitions
      modifies this`partitions, links
      ensures Shaped() && partitions == old(partitions) - 1
      ensures links[4..partitions] == GapClosed(old(links[4..partitions]), i - 4)
    {
      hide GapClosed, Shifted;
      ghost var all, n := links[..], partitions;
      partitions := partitions - 1;
      var j := i;
      ShiftNone(all, i);
      while j < partitions
        invariant i <= j <= partitions == n - 1
        invariant links[..] == Shifted(all, i, j)
      {
        ShiftStep(all, i, j);
        assert links[j + 1] == links[..][j + 1];
        links[j] := links[j + 1];
        j := j + 1;
      }
      ShiftedPart(all, i, n);
      assert links[4..partitions] == links[..][4..partitions];
    }

    /** The part of delete_partition for a logical partition. */
    method DeleteLogical(i: nat)
      requires Shaped() && 4 <= i < partitions
      modifies this`partitions, links
      ensures Shaped() && partitions <= old(partitions)
      ensures links[4..partitions] == Delete(old(links[4..partitions]), extendedOffset, i - 4)
    {
      hide WithNext, WithData, Rebased, Redirected, Next, Data, LogicalOf, Delete, GapClosed;
      DeleteInPlace(links[4..partitions], extendedOffset, i - 4);
      ghost var ls := links[4..partitions];
      var q := Next(links[i]);
      if q.kind == 0 && i > 4 {
        partitions := partitions - 1;
        links[i - 1] := WithNext(links[i - 1], NO_PART, links[i - 1].changed);
        assert links[4..partitions] == ls[..|ls| - 1][i - 5 := WithNext(ls[i - 5], NO_PART, ls[i - 5].changed)];
      } else {
        if i > 4 {
          links[i - 1] := WithNext(links[i - 1], Redirected(q), true);
          assert links[4..partitions] == ls[i - 5 := WithNext(ls[i - 5], Redirected(q), true)];
        } else {
          links[5] := Rebased(links[5], extendedOffset);
          assert 1 < |ls| ==> links[4..partitions] == ls[1 := Rebased(ls[1], extendedOffset)];
        }
        if partitions > 5 {
          RemoveLink(i);
        } else {
          links[i] := WithData(links[i], NO_PART);
        }
      }
    }

    /** check_bounds, with the extended partition bounded too when a primary one is added. */
    method CheckBounds(n: nat) returns (first: array<u32>, last: array<u32>)
      requires Shaped() && Searchable(Using(), Model())
      ensures fresh(first) && fresh(last) && first != last && first.Length == last.Length == partitions
      ensures forall i :: 0 <= i < partitions ==>
        first[i] == First(Using(), Model(), n, i) && last[i] == Last(Model(), n, i)
    {
      hide Calculate, FirstOf, Div, Mod;
      ghost var t := Model();
      first, last := new u32[partitions](_ => 0), new u32[partitions](_ => 0);
      var i := 0;
      while i < partitions
        invariant 0 <= i <= partitions
        invariant forall k :: 0 <= k < i ==> first[k] == Bound(Using(), t, k) && last[k] == Last(t, 4, k)
      {
        var p := if i < 4 then Primary(mbr[i]) else LogicalOf(links[i]);
        assert p == t.At(i);
        if p.kind == 0 || p.kind == EXTENDED {
          first[i], last[i] := NOWHERE, 0;
        } else {
          PlacedRoom(Using(), t, i);
          first[i] := RoundedFirst(g, p.chs, p.start);
          last[i] := Sub32(Add32(p.start, p.count), 1);
        }
        i := i + 1;
      }
      if n < 4 && extendedOffset != 0 {
        first[extIndex] := extendedOffset;
        last[extIndex] := Sub32(Add32(mbr[extIndex].start, mbr[extIndex].count), 1);
      }
    }

    /** The loop that shows the first sectors in cylinders. */
    static method RoundToUnits(first: array<u32>, factor: u32)
      requires 1 <= factor
      modifies first
      ensures forall k :: 0 <= k < first.Length ==> first[k] == UnitFirst(old(first[k]), factor)
    {
      hide UnitFirst;
      var i := 0;
      while i < first.Length
        invariant 0 <= i <= first.Length
        invariant forall k :: 0 <= k < first.Length ==>
          first[k] == if k < i then UnitFirst(old(first[k]), factor) else old(first[k])
      {
        first[i] := UnitFirst(first[i], factor);
        i := i + 1;
      }
    }

    /** The local tables of add_partition, before its first question. */
    method Prepare(n: nat) returns (q: Search)
      requires Shaped() && Searchable(Using(), Model()) && (n < 4 || extendedOffset != 0)
      ensures q == SearchOf(Using(), Model(), n)
    {
      hide First, Last, UnitFirst, Searchable, LogicalOf;
      ghost var t := Model();
      SearchableSane(Using(), t);
      var first, last := CheckBounds(n);
      var s := Settings(g, dos, sectorOffset, unit);
      var factor := FactorOf(s);
      if unit {
        RoundToUnits(first, factor);
      }
      var lowest, limit;
      if n < 4 {
        lowest, limit := sectorOffset, LastSector(s);
      } else {
        lowest := Add32(extendedOffset, sectorOffset);
        limit := Sub32(Add32(mbr[extIndex].start, mbr[extIndex].count), 1);
      }
      var offsets := [0, 0, 0, 0] + Offsets(links[4..partitions]);
      q := Search(first[..], last[..], offsets, lowest, limit, sectorOffset, if n < 4 then 1 else sectorOffset,
                  if n > 4 then 1 else 0, unit, factor);
      ghost var r := SearchOf(s, t, n);
      assert q.first == r.first;
      assert q.last == r.last;
      assert q.offsets == r.offsets;
      assert q.limit == r.limit && q.lowest == r.lowest;
    }

    /** add_partition for a primary partition; an extended one gets an empty chain. */
    method AddPrimary(n: nat, kind: u8, answers: seq<u32>) returns (outcome: Outcome)
      requires Valid() && n < 4 && (kind == LINUX_NATIVE || (kind == EXTENDED && extendedOffset == 0))
      modifies this`partitions, this`extIndex, this`extendedOffset, this`bootChanged, mbr, links
      ensures Valid() && bootChanged == (old(bootChanged) || (outcome.Tried? && outcome.gap.Found?))
      ensures outcome.AlreadyDefined? <==> old(mbr[n]).kind != 0
      ensures outcome.Tried? && outcome.gap.Found? ==>
        Granted(SearchOf(Using(), old(Model()), n), outcome.gap.start, outcome.gap.stop)
        && Model() == PrimaryAdded(Using(), old(Model()), n, kind, outcome.gap.start, outcome.gap.stop)
      ensures !(outcome.Tried? && outcome.gap.Found?) ==> Model() == old(Model())
      ensures outcome.Tried? ==> Answers(SearchOf(Using(), old(Model()), n), answers, outcome.gap)
    {
      hide SearchOf, Granted, Safe, SetPartition, Obeys, Search.Given, Search.Shaped, Search.Sound, Searchable;
      ghost var s, t := Using(), Model();
      if mbr[n].kind != 0 {
        return AlreadyDefined;
      }
      SafeSearchable(s, t);
      SearchableSane(s, t);
      SearchSound(s, t, n);
      var q := Prepare(n);
      var gap := FindGap(q, LastSector(Settings(g, dos, sectorOffset, unit)), answers);
      outcome := Tried(gap);
      if gap.Found? {
        AddPrimarySafe(s, t, n, kind, gap.start, gap.stop);
        mbr[n] := SetPartition(g, dos, gap.start, gap.stop, kind, 0);
        bootChanged := true;
        if kind == EXTENDED {
          extIndex := n;
          extendedOffset := gap.start;
          links[4] := Record(gap.start, NO_SLOTS, 0, 1, true);
          partitions := 5;
        }
        assert Model() == PrimaryAdded(s, t, n, kind, gap.start, gap.stop);
      }
    }

    /** The blank link that add_logical puts at the end of the chain, unless the fifth partition is free. */
    method OpenChain()
      requires Shaped() && 4 < partitions < MAXIMUM_PARTS
      modifies this`partitions, links
      ensures Shaped() && Model() == OpenTable(old(Model()), old(links[partitions].changed))
      ensures partitions == 5 ==> Model() == old(Model())
      ensures 5 < partitions ==> links[4..partitions - 1] == old(Model()).links
    {
      hide Data;
      ghost var ls := links[4..partitions];
      if partitions > 5 || Data(links[4]).kind != 0 {
        links[partitions] := Record(0, NO_SLOTS, 0, 1, links[partitions].changed);
        partitions := partitions + 1;
        assert links[4..partitions] == ls + [links[partitions - 1]];
      }
    }

    /** add_logical and the part of add_partition for the last logical partition; an abandoned command never returns. */
    method AddLogical(answers: seq<u32>) returns (gap: Gap)
      requires Valid() && extendedOffset != 0 && partitions < MAXIMUM_PARTS
      modifies this`partitions, links
      ensures !gap.Aborted? ==> Valid()
      ensures gap.NoSpace? ==> Model() == old(Model())
      ensures Shaped() && old(Model()).links != []
      ensures gap.Found? ==>
        && Granted(LogicalSearch(Using(), old(Model()), old(links[partitions].changed)), gap.start, gap.stop)
        && Model() == LogicalAdded(Using(), old(Model()), old(links[partitions].changed), gap.start, gap.stop)
      ensures Answers(LogicalSearch(Using(), old(Model()), old(links[partitions].changed)), answers, gap)
    {
      hide SearchOf, Granted, Safe, SetPartition, Obeys, Answers, Searchable, Search.Sound, Opened, Filled;
      ghost var s, t, changed := Using(), Model(), links[partitions].changed;
      SafeLinks(s, t);
      OpenSearch(s, t, changed);
      OpenChain();
      var n := partitions - 1;
      var q := Prepare(n);
      gap := FindGap(q, LastSector(Settings(g, dos, sectorOffset, unit)), answers);
      if gap.NoSpace? {
        if n > 4 {
          partitions := partitions - 1;
        }
        assert Model() == t;
      } else if gap.Found? {
        AddLogicalSafe(s, t, changed, gap.start, gap.stop);
        FillLast(gap.start, gap.stop);
        assert Model() == LogicalAdded(s, t, changed, gap.start, gap.stop);
      }
    }

    /** What add_partition does to the last link and the pointer to it. */
    method FillLast(start: u32, stop: u32)
      requires Shaped() && 4 < partitions && g.Sane()
      modifies links
      ensures links[4..partitions] ==
        Filled(old(links[4..partitions]), extendedOffset, g, dos, start, stop, sectorOffset)
    {
      hide SetPartition, WithData, WithNext;
      var n := partitions - 1;
      if n > 4 {
        links[n] := links[n].(offset := Sub32(start, sectorOffset));
      }
      links[n] := WithData(links[n], SetPartition(g, dos, start, stop, LINUX_NATIVE, links[n].offset));
      if n > 4 {
        links[n - 1] := WithNext(links[n - 1],
                                 SetPartition(g, dos, Sub32(start, sectorOffset), stop, EXTENDED, extendedOffset),
                                 true);
      }
    }

    /** toggle_dos */
    method ToggleDos()
      requires Valid()
      modifies this`dos, this`sectorOffset
      ensures Valid() && Model() == old(Model()) && dos == !old(dos)
      ensures sectorOffset == if dos then g.sectors else 1
    {
      hide Safe;
      ghost var s := Using();
      dos := !dos;
      sectorOffset := if dos then g.sectors else 1;
      SafeSettings(s, Using(), Model());
    }

    /** change_units */
    method ChangeUnits()
      requires Valid()
      modifies this`unit
      ensures Valid() && Model() == old(Model()) && unit == !old(unit)
    {
      hide Safe;
      ghost var s := Using();
      unit := !unit;
      SafeSettings(s, Using(), Model());
    }

    /** write_table */
    method WriteTable(disk: Disk) returns (after: Disk)
      requires Shaped()
      ensures after == WriteTables(disk, Model(), bootChanged)
    {
      after := disk;
      if bootChanged {
        after := after[0 := mbr[..]];
      }
      ghost var before := after;
      var i := 4;
      while i < partitions
        invariant 4 <= i <= partitions && after == Write(before, links[4..i])
      {
        if links[i].changed {
          after := after[links[i].offset := links[i].slots];
        }
        i := i + 1;
        assert links[4..i][..i - 5] == links[4..i - 1];
      }
    }

    /** A new primary or extended partition, unless there are too many or it is there. */
    method ExecutePrimary(n: nat, kind: u8, answers: seq<u32>)
      requires Valid() && (kind == LINUX_NATIVE || (kind == EXTENDED && extendedOffset == 0))
      modifies this`partitions, this`extIndex, this`extendedOffset, this`bootChanged, mbr, links
      ensures Valid() && Progresses(old(Model()), Model(), sectorOffset)
      ensures Grown(Using(), old(Model()), n, kind, answers, Model())
      ensures bootChanged || (!old(bootChanged) && mbr[..] == old(mbr[..]))
    {
      ghost var s, t := Using(), Model();
      SafeHeaded(s, t);
      SafeLinks(s, t);
      hide Safe, PrimaryAdded, SearchOf, Granted, Tends, Neat, Search.Free, Search.Given, Search.Shaped, Obeys, Headed,
          AllMade, AllMarked, MostTracked;
      StaysProgresses(t, sectorOffset);
      if partitions < MAXIMUM_PARTS && n < 4 {
        var outcome := AddPrimary(n, kind, answers);
        if outcome.Tried? && outcome.gap.Found? {
          PrimaryProgresses(s, t, n, kind, outcome.gap.start, outcome.gap.stop);
        }
      }
    }

    /** A new logical partition. */
    method ExecuteLogical(answers: seq<u32>) returns (running: bool)
      requires Valid() && extendedOffset != 0 && partitions < MAXIMUM_PARTS
      modifies this`partitions, links
      ensures running ==> Valid() && Progresses(old(Model()), Model(), sectorOffset)
      ensures running ==> GrownChain(Using(), old(Model()), old(links[partitions].changed), answers, Model())
    {
      ghost var s, t, changed := Using(), Model(), links[partitions].changed;
      SafeHeaded(s, t);
      SafeLinks(s, t);
      hide Safe, LogicalAdded, SearchOf, LogicalSearch, Granted, Tends, Neat, Search.Free, Search.Given, Search.Shaped,
          Obeys, Headed, AllMade, AllMarked, MostTracked;
      StaysProgresses(t, sectorOffset);
      var gap := AddLogical(answers);
      running := !gap.Aborted?;
      if gap.Found? {
        LogicalProgresses(s, t, changed, gap.start, gap.stop);
      }
    }

    /** One command of the main menu; `running` is false if the command is abandoned. */
    method Execute(c: Command) returns (running: bool)
      requires Valid()
      modifies this`dos, this`unit, this`sectorOffset, this`partitions, this`extIndex, this`extendedOffset
      modifies this`bootChanged, mbr, links
      ensures running ==> Valid() && Progresses(old(Model()), Model(), old(sectorOffset))
      ensures running ==> Performs(old(Using()), old(Model()), c, Using(), Model())
      ensures c.DosCompatibility? || sectorOffset == old(sectorOffset)
      ensures bootChanged || (!old(bootChanged) && mbr[..] == old(mbr[..]))
    {
      ghost var s, t := Using(), Model();
      assert s.Sane() && s.g.Sane();
      SafeHeaded(s, t);
      SafeLinks(s, t);
      hide Safe, DeleteFrom, Progresses, Grown, GrownChain, Settings.Sane, OnlyGone, Headed;
      StaysProgresses(t, sectorOffset);
      running := true;
      match c
      case DeleteOne(i) =>
        if i < partitions {
          DeletePartition(i);
          DeleteProgresses(t, i, s.sectorOffset);
          DeleteBoot(t, i);
        }
      case NewPrimary(n, answers) =>
        ExecutePrimary(n, LINUX_NATIVE, answers);
      case NewExtended(n, answers) =>
        if extendedOffset == 0 {
          ExecutePrimary(n, EXTENDED, answers);
        }
      case NewLogical(answers) =>
        if partitions < MAXIMUM_PARTS && extendedOffset != 0 {
          running := ExecuteLogical(answers);
        }
      case DosCompatibility => ToggleDos();
      case Units => ChangeUnits();
    }

    /**
     Any run of commands: no two partitions share a sector, buffers keep their layout
     and marks, and as long as the DOS compatibility flag stays, so do links.
     */
    method Run(commands: seq<Command>) returns (running: bool, ghost stages: seq<Stage>)
      requires Valid()
      modifies this`dos, this`unit, this`sectorOffset, this`partitions, this`extIndex, this`extendedOffset
      modifies this`bootChanged, mbr, links
      ensures running ==> Valid() && Tends(old(Model()), Model()) && SpansKept(old(Model()), Model())
      ensures running ==> AllApart(Model())
      ensures running && DosCompatibility !in commands ==> Progresses(old(Model()), Model(), old(sectorOffset))
      ensures bootChanged || (!old(bootChanged) && mbr[..] == old(mbr[..]))
      ensures running ==> Leading(stages, commands) && stages[0] == Stage(old(Using()), old(Model()))
      ensures running ==> stages[|commands|] == Stage(Using(), Model())
    {
      hide LogicalOf, Chain, Calculate, AllApart, Safe, Tends, SpansKept, Progresses, Performs;
      ghost var t := Model();
      StaysProgresses(t, sectorOffset);
      running, stages := true, [Stage(Using(), Model())];
      var k := 0;
      while k < |commands| && running
        invariant 0 <= k <= |commands| && (running ==> Valid() && Tends(t, Model()) && SpansKept(t, Model()))
        invariant running ==> Leading(stages, commands[..k]) && stages[0] == Stage(old(Using()), old(Model()))
        invariant running ==> stages[k] == Stage(Using(), Model())
        invariant DosCompatibility !in commands ==> sectorOffset == old(sectorOffset)
        invariant running && DosCompatibility !in commands ==> Progresses(t, Model(), old(sectorOffset))
        invariant bootChanged || (!old(bootChanged) && mbr[..] == old(mbr[..]))
      {
        ghost var r, hop := Model(), sectorOffset;
        running := Execute(commands[k]);
        if running {
          ProgressesFurther(t, r, Model(), hop);
          LeadingMore(stages, commands[..k], commands[k], Stage(Using(), Model()));
          assert commands[..k + 1] == commands[..k] + [commands[k]];
          stages := stages + [Stage(Using(), Model())];
        }
        k := k + 1;
      }
      if running {
        assert commands[..k] == commands;
        SafeApart(Using(), Model());
      }
    }
  }

  /** The commands that change the tables, with the answers the user will give. */
  datatype Command =
    | DeleteOne(i: nat)
    | NewPrimary(n: nat, answers: seq<u32>)
    | NewExtended(n: nat, answers: seq<u32>)
    | NewLogical(answers: seq<u32>)
    | DosCompatibility
    | Units

  /** What adding primary partition `n` makes of a table: the gap that the search finds is filled. */
  ghost predicate Grown(s: Settings, t: Table, n: nat, kind: u8, answers: seq<u32>, u: Table)
    requires s.Sane() && |t.mbr| == 4 && t.extIndex < 4
  {
    if n < 4 && t.Size() < MAXIMUM_PARTS && t.mbr[n].kind == 0 then
      var q := SearchOf(s, t, n);
      q.Shaped() &&
      var gap := q.Given(answers);
      u == if gap.Found? then PrimaryAdded(s, t, n, kind, gap.start, gap.stop) else t
    else u == t
  }

  /** The same for a logical partition; `changed` is what is left of the mark of an earlier link in that place. */
  ghost predicate GrownChain(s: Settings, t: Table, changed: bool, answers: seq<u32>, u: Table)
    requires s.Sane() && |t.mbr| == 4 && t.extIndex < 4
  {
    t.links != [] &&
    var q := LogicalSearch(s, t, changed);
    q.Shaped() &&
    var gap := q.Given(answers);
    u == if gap.Found? then LogicalAdded(s, t, changed, gap.start, gap.stop) else t
  }

  /** Command `c` leads from one state of the editor to another. */
  ghost predicate Performs(s: Settings, t: Table, c: Command, r: Settings, u: Table) {
    && s.Sane() && |t.mbr| == 4 && t.extIndex < 4
    && match c
       case DeleteOne(i) => r == s && if i < t.Size() then u == DeleteFrom(t, i) && OnlyGone(t, i, u) else u == t
       case NewPrimary(n, answers) => r == s && Grown(s, t, n, LINUX_NATIVE, answers, u)
       case NewExtended(n, answers) =>
         r == s && if t.base == 0 then Grown(s, t, n, EXTENDED, answers, u) else u == t
       case NewLogical(answers) =>
         r == s && if t.base == 0 || MAXIMUM_PARTS <= t.Size() then u == t
                   else exists changed :: GrownChain(s, t, changed, answers, u)
       case DosCompatibility =>
         u == t && r == s.(dos := !s.dos, sectorOffset := if s.dos then 1 else s.g.sectors)
       case Units => u == t && r == s.(unit := !s.unit)
  }

  /** What the editor goes by and what it has. */
  datatype Stage = Stage(s: Settings, t: Table)

  /** The stages between the commands of a run. */
  ghost predicate Leading(stages: seq<Stage>, commands: seq<Command>) {
    && |stages| == |commands| + 1
    && forall k :: 0 <= k < |commands| ==>
         Performs(stages[k].s, stages[k].t, commands[k], stages[k + 1].s, stages[k + 1].t)
  }

  lemma LeadingMore(stages: seq<Stage>, commands: seq<Command>, c: Command, next: Stage)
    requires Leading(stages, commands)
    requires Performs(stages[|commands|].s, stages[|commands|].t, c, next.s, next.t)
    ensures Leading(stages + [next], commands + [c])
  {
    hide Performs;
  }

  lemma StaysProgresses(t: Table, hop: nat)
    ensures Progresses(t, t, hop) && Tends(t, t) && SpansKept(t, t)
  {
  }

  lemma ProgressesFurther(t: Table, r: Table, u: Table, hop: nat)
    requires Tends(t, r) && SpansKept(t, r) && Progresses(r, u, hop)
    ensures Tends(t, u) && SpansKept(t, u) && (Progresses(t, r, hop) ==> Progresses(t, u, hop))
  {
    hide Neat, AllSpan, AllMade, AllMarked, Ended, MostTracked;
  }

  lemma DeleteBoot(t: Table, i: nat)
    requires |t.mbr| == 4 && i < t.Size()
    ensures 4 <= i ==> DeleteFrom(t, i).mbr == t.mbr
  {
  }

  lemma SafeApart(s: Settings, t: Table)
    requires Safe(s, t)
    ensures AllApart(t)
  {
    forall i, j | 0 <= i < j < t.Size() && t.HoldsData(i) && t.HoldsData(j) ensures Apart(t.At(i), t.At(j)) {
      SafeDisjoint(s, t, i, j);
    }
  }

  /** Safety is about the disk and the tables, not about the user's settings. */
  lemma SafeSettings(s: Settings, r: Settings, t: Table)
    requires Safe(s, t) && r.g == s.g
    ensures Safe(r, t)
  {
    hide LogicalOf, Chain, Calculate, Apart, Headed, Exclusive;
    SafeHeaded(s, t);
    forall i | 0 <= i < t.Size() && t.Used(i) ensures Placed(r, t.At(i)) {
      assert Placed(s, t.At(i));
    }
  }

  lemma SafeLinks(s: Settings, t: Table)
    requires Safe(s, t)
    ensures |t.mbr| == 4 && t.extIndex < 4 && |t.links| <= MOST_LINKS && (t.base != 0 <==> t.links != [])
  {
  }

  lemma OpenSearch(s: Settings, t: Table, changed: bool)
    requires Safe(s, t) && s.Sane() && t.links != []
    ensures Searchable(s, OpenTable(t, changed)) && LogicalSearch(s, t, changed).Sound(s.Total() - 1)
  {
    hide SearchOf, Searchable, Search.Sound, Opened;
    SafeLinks(s, t);
    SafeSearchable(s, t);
    OpenSearchable(s, t, changed);
    SearchSound(s, OpenTable(t, changed), 3 + |Opened(t.links, changed)|);
  }

  function Offsets(ls: seq<Link>): (r: seq<u32>)
    ensures |r| == |ls|
    ensures forall k :: 0 <= k < |r| ==> r[k] == ls[k].offset
  {
    seq(|ls|, k requires 0 <= k < |ls| => ls[k].offset)
  }

  /** What check_bounds finds for a partition of its own sectors. */
  ghost function Bound(s: Settings, t: Table, i: nat): u32
    requires s.g.Sane() && |t.mbr| == 4 && i < t.Size()
  {
    First(s, t, 4, i)
  }

  /** There is room above every partition for the loop of `rounded`. */
  lemma PlacedRoom(s: Settings, t: Table, i: nat)
    requires Searchable(s, t) && i < t.Size() && t.Used(i)
    ensures Calculate(s.g, t.At(i).chs) <= t.At(i).start && t.At(i).start + s.g.FullBits() < U32
  {
    hide Calculate, LogicalOf;
    assert Placed(s, t.At(i));
  }

  method RoundedFirst(g: Geometry, a: Address, start: u32) returns (r: u32)
    requires g.Sane() && Calculate(g, a) <= start && start + g.FullBits() < U32
    ensures r == FirstOf(g, a, start)
  {
    hide Calculate;
    r := Rounded(g, Calculate(g, a), start);
  }

  /** The elements behind `i` up to `j` have moved one place down. */
  ghost function Shifted(all: seq<Link>, i: nat, j: nat): (r: seq<Link>)
    requires i <= j < |all|
    ensures |r| == |all|
  {
    all[..i] + all[i + 1..j + 1] + all[j..]
  }

  lemma ShiftNone(all: seq<Link>, i: nat)
    requires i < |all|
    ensures Shifted(all, i, i) == all
  {
  }

  lemma ShiftStep(all: seq<Link>, i: nat, j: nat)
    requires i <= j < |all| - 1
    ensures Shifted(all, i, j)[j + 1] == all[j + 1]
    ensures Shifted(all, i, j + 1) == Shifted(all, i, j)[j := all[j + 1]]
  {
  }

  lemma ShiftedPart(all: seq<Link>, i: nat, n: nat)
    requires 4 <= i < n <= |all|
    ensures Shifted(all, i, n - 1)[4..n - 1] == GapClosed(all[4..n], i - 4)
  {
  }

  lemma TableShape(disk: Disk, x: u32)
    requires Tables(disk) && x in disk
    ensures |disk[x]| == 4
  {
  }
}
