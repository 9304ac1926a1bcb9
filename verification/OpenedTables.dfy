/** Editing partition tables that were read from a disk rather than made (get_boot and write_table in fdisk.c). */
module OpenedTables {
  import opened Words
  import opened Chs
  import opened ExtendedChain
  import opened ChainFiles
  import opened MadeChains
  import opened MbrModel
  import opened MbrFiles
  import opened MbrEditor

  /**
   A disk whose tables the editor may be trusted with: at most one primary entry is
   extended, and its start is not 0; every boot record can be read, lies on the disk and
   not at its first sector, and holds a partition rather than two pointers; and the
   partitions lie on the disk, where their addresses say or behind, and apart.
   */
  predicate Fit(s: Settings, disk: Disk)
    requires Tables(disk)
  {
    && s.g.Sane() && Boot(disk).Booted?
    && (forall i :: 0 <= i < 4 && disk[0][i].kind == EXTENDED ==> i == FirstExtended(disk[0], 0))
    && var t := Boot(disk).t;
    && (forall i :: 4 <= i < t.Size() ==> t.At(i).kind != EXTENDED && 0 < t.Offset(i) < s.Total())
    && (forall i :: 0 <= i < t.Size() && t.Used(i) ==> Placed(s, t.At(i)))
    && Exclusive(t)
  }

  lemma BootShape(disk: Disk)
    requires Tables(disk) && Boot(disk).Booted?
    ensures var t := Boot(disk).t;
      && 0 in disk && t.mbr == disk[0] && |t.mbr| == 4 && t.extIndex < 4 && |t.links| <= MOST_LINKS && Ends(t.links)
      && (forall k :: 0 <= k < |t.links| - 1 ==> Linked(t.links[k], t.links[k + 1], t.base))
      && MostTracked(t.links, disk)
      && if FirstExtended(disk[0], 0) == 4 then t.base == 0 && t.links == [] && t.extIndex == 0
         else t.extIndex == FirstExtended(disk[0], 0) && t.base == t.mbr[t.extIndex].start && Chain(t.links, t.base)
  {
    hide ReadFrom, FirstExtended, Next, OnDisk;
    var k := FirstExtended(disk[0], 0);
    if k < 4 {
      ReadConnected(disk, disk[0][k].start, disk[0][k], []);
      ReadMost(disk, disk[0][k].start, disk[0][k], []);
    }
  }

  /** Those disks are exactly the ones that open to tables on which every command is safe. */
  lemma FitIff(s: Settings, disk: Disk)
    requires Tables(disk) && Boot(disk).Booted?
    ensures Fit(s, disk) <==> Safe(s, Boot(disk).t)
  {
    hide Exclusive, Placed, LogicalOf, FirstExtended, Boot, Chain, Ends, MostTracked;
    BootShape(disk);
    if Safe(s, Boot(disk).t) {
      HeadFound(Boot(disk).t);
    }
  }

  /** The same tables are as safe. */
  lemma SameSafe(s: Settings, r: Table, t: Table)
    requires Same(r, t) && Safe(s, t) && r.extIndex < 4
    ensures Safe(s, r)
  {
    hide Placed, LogicalOf, Chain, Apart, Contains;
    assert forall i :: 0 <= i < t.Size() ==> r.At(i) == t.At(i) && r.Offset(i) == t.Offset(i);
  }

  /** Marks do not matter to safety. */
  lemma CleanSafe(s: Settings, t: Table)
    requires Safe(s, t)
    ensures Safe(s, t.(links := Clean(t.links)))
  {
    hide Placed, LogicalOf, Apart, Contains, Linked;
    var r := t.(links := Clean(t.links));
    forall k | 0 <= k < |t.links| ensures LogicalOf(r.links[k]) == LogicalOf(t.links[k]) {
      UnmarkedLogical(t.links[k]);
    }
    forall k | 0 <= k < |t.links| - 1 ensures Linked(r.links[k], r.links[k + 1], t.base) {
      assert Linked(t.links[k], t.links[k + 1], t.base);
      UnmarkedLinked(t.links[k], t.links[k + 1], t.base);
    }
    assert forall i :: 0 <= i < t.Size() ==> r.At(i) == t.At(i) && r.Offset(i) == t.Offset(i);
  }

  lemma UnmarkedLogical(l: Link)
    ensures LogicalOf(Unmarked(l)) == LogicalOf(l)
  {
  }

  lemma UnmarkedLinked(l: Link, m: Link, base: u32)
    ensures Linked(Unmarked(l), Unmarked(m), base) <==> Linked(l, m, base)
  {
  }

  // ----- runs

  /** Starting the program on a disk. */
  method Start(g: Geometry, disk: Disk) returns (ok: bool, e: Editor)
    requires Settings(g, true, 1, true).Sane() && Tables(disk)
    ensures fresh(e) && fresh(e.mbr) && fresh(e.links) && e.Shaped() && !e.bootChanged
    ensures e.Using() == Settings(g, true, g.sectors, true) && e.Using().Sane()
    ensures (ok <==> Boot(disk).Booted?) && (ok ==> Same(e.Model(), Boot(disk).t))
  {
    hide Safe, Boot, Tables, Same;
    e := new Editor(g);
    ok := e.GetBoot(disk);
  }

  /** Tables that came back unchanged are safe again, under whatever settings the program starts with. */
  lemma BackSafe(s: Settings, t: Table, start: Settings, r: Table)
    requires Safe(s, t) && start.g == s.g && Same(r, t.(links := Clean(t.links))) && r.extIndex < 4
    ensures Safe(start, r)
  {
    hide Safe, Same;
    SafeSettings(s, start, t);
    CleanSafe(start, t);
    SameSafe(start, r, t.(links := Clean(t.links)));
  }

  lemma NothingMade(t: Table, hop: nat)
    requires t.links == []
    ensures AllMade(t.links) && AllMarked(t.links) && Ended(t.links) && Neat(t, hop) && AllSpan(t.links, t.base)
  {
  }

  lemma Kept(t: Table, r: Table, hop: nat)
    requires AllMade(t.links) && AllMarked(t.links) && Ended(t.links) && Neat(t, hop) && Progresses(t, r, hop)
    requires AllSpan(t.links, t.base)
    ensures AllMade(r.links) && AllMarked(r.links) && Ended(r.links) && Neat(r, hop) && AllSpan(r.links, r.base)
  {
  }

  /** Tables as the editor itself makes them. */
  predicate EditorsOwn(t: Table, hop: nat) {
    AllMade(t.links) && Ended(t.links) && Neat(t, hop)
  }

  /** The last link, if there is one, is marked or on the disk. */
  predicate LastTracked(links: seq<Link>, disk: Disk) {
    links != [] ==> links[|links| - 1].changed || OnDisk(links[|links| - 1], disk)
  }

  /** Of tables that stayed the editor's own, all that saving can miss is the last link. */
  lemma OwnReturn(t: Table, disk: Disk, hop: nat)
    requires EditorsOwn(t, hop) && MostTracked(t.links, disk)
    ensures Distinct(t.links) && Tidy(t.links) && Ends(t.links)
    ensures Tracked(t.links, disk) <==> LastTracked(t.links, disk)
  {
    hide AllMade, Spaced, Distinct, Tidy;
    AllTidy(t.links);
    TrackedMost(t.links, disk);
  }

  /** Runs keep tables the editor's own. */
  lemma OwnKept(t: Table, r: Table, hop: nat)
    requires EditorsOwn(t, hop) && Progresses(t, r, hop)
    ensures EditorsOwn(r, hop)
  {
    hide AllMade, AllMarked, Neat, Ended, MostTracked;
  }

  lemma SameOwn(t: Table, r: Table, hop: nat)
    requires Same(r, t)
    ensures (EditorsOwn(r, hop) <==> EditorsOwn(t, hop)) && (Neat(r, hop) <==> Neat(t, hop))
    ensures Ended(r.links) <==> Ended(t.links)
  {
  }

  /** Starting on such a disk and running any commands: partitions stay apart, and only the last boot
      record can get out of step with the disk. */
  method OpenAndRun(g: Geometry, disk: Disk, commands: seq<Command>) returns (ok: bool, running: bool, e: Editor)
    requires Settings(g, true, 1, true).Sane() && Tables(disk)
    requires Boot(disk).Booted? ==> Fit(Settings(g, true, g.sectors, true), disk)
    ensures (ok <==> Boot(disk).Booted?) && e.g == g
    ensures ok && running ==>
      && e.Valid() && AllApart(e.Model()) && MostTracked(e.Model().links, disk)
      && 0 in disk && (e.bootChanged || e.mbr[..] == disk[0])
      && (Ended(Boot(disk).t.links) ==> Ended(e.Model().links))
    ensures ok && running && DosCompatibility !in commands ==>
      && (Neat(Boot(disk).t, g.sectors) ==> Neat(e.Model(), g.sectors))
      && (EditorsOwn(Boot(disk).t, g.sectors) ==> EditorsOwn(e.Model(), g.sectors))
  {
    hide Safe, Headed, Boot, Fit, MostTracked, Ended, Neat, Tables, AllMade, AllMarked, AllApart, EditorsOwn;
    ok, e := Start(g, disk);
    running := false;
    if ok {
      ghost var t := Boot(disk).t;
      FitIff(e.Using(), disk);
      BootShape(disk);
      SameSafe(e.Using(), e.Model(), t);
      SameOwn(t, e.Model(), g.sectors);
      ghost var first := e.Model();
      ghost var stages;
      running, stages := e.Run(commands);
      if running && EditorsOwn(first, g.sectors) && DosCompatibility !in commands {
        OwnKept(first, e.Model(), g.sectors);
      }
    }
  }

  /**
   After such a run, saving and starting again brings the tables back exactly under the
   conditions of TablesRoundTripIff, and safe.  For tables of the editor's own making and
   an unchanged DOS compatibility flag the conditions come down to the last boot record.
   */
  method EditOpened(g: Geometry, disk: Disk, commands: seq<Command>)
    returns (ok: bool, running: bool, e: Editor, after: Disk, back: bool, r: Editor)
    requires Settings(g, true, 1, true).Sane() && Tables(disk)
    requires Boot(disk).Booted? ==> Fit(Settings(g, true, g.sectors, true), disk)
    ensures (ok <==> Boot(disk).Booted?) && r.Shaped()
    ensures ok && running ==> e.Valid()
    ensures ok && running ==> var t := e.Model(); var same := back && Same(r.Model(), t.(links := Clean(t.links)));
      && after == WriteTables(disk, t, e.bootChanged)
      && (same <==> Distinct(t.links) && Tidy(t.links) && Tracked(t.links, disk) && Ends(t.links))
      && (same ==> r.Valid())
      && (EditorsOwn(Boot(disk).t, g.sectors) && DosCompatibility !in commands ==>
            (same <==> LastTracked(t.links, disk)))
  {
    hide Safe, Headed, Boot, WriteTables, Fit, MostTracked, Tracked, Distinct, Tidy, Ends, Ended, Neat, Tables,
        AllApart, EditorsOwn, LastTracked;
    ok, running, e := OpenAndRun(g, disk, commands);
    after := disk;
    if ok && running {
      SafeHeaded(e.Using(), e.Model());
      SafeOffsets(e.Using(), e.Model());
      after := e.WriteTable(disk);
      TablesRoundTripIff(e.Model(), disk, e.bootChanged);
      if EditorsOwn(e.Model(), g.sectors) {
        OwnReturn(e.Model(), disk, g.sectors);
      }
    }
    back, r := Start(g, after);
    if ok && running && back && Same(r.Model(), e.Model().(links := Clean(e.Model().links))) {
      BackSafe(e.Using(), e.Model(), r.Using(), r.Model());
    }
  }

  /** An empty disk, any run of commands, saving, and starting again: the tables are as they were, and as safe. */
  method EditDisk(g: Geometry, commands: seq<Command>, disk: Disk)
    returns (running: bool, e: Editor, after: Disk, ok: bool, r: Editor)
    requires Settings(g, true, 1, true).Sane() && DosCompatibility !in commands
    requires Tables(disk) && 0 in disk && disk[0] == NO_SLOTS
    ensures r.Shaped()
    ensures running ==>
      && e.Valid() && ok && Same(r.Model(), e.Model().(links := Clean(e.Model().links)))
      && r.Valid() && AllMade(r.Model().links) && Neat(r.Model(), g.sectors) && Ended(r.Model().links)
      && AllSpan(r.Model().links, r.Model().base)
  {
    hide Safe, Headed, Tends, Neat, Boot, WriteTables, AllMade, AllMarked, Ended, Tables, AllSpan, SpansKept,
        Progresses, Leading;
    e := new Editor(g);
    NothingMade(Table(NO_SLOTS, [], 0, 0), g.sectors);
    ghost var stages;
    running, stages := e.Run(commands);
    after := disk;
    if running {
      after := e.WriteTable(disk);
      ghost var t := e.Model();
      Kept(Table(NO_SLOTS, [], 0, 0), t, g.sectors);
      MadeTablesReturn(e.Using(), t, disk, e.bootChanged, g.sectors);
    }
    ok, r := Start(g, after);
    if running {
      BackMade(e.Model(), r.Model(), g.sectors);
      BackSafe(e.Using(), e.Model(), r.Using(), r.Model());
    }
  }

  lemma BackSpans(t: Table, r: Table)
    requires AllSpan(t.links, t.base) && Same(r, t.(links := Clean(t.links)))
    ensures AllSpan(r.links, r.base)
  {
    hide Spans;
    forall k | 0 <= k < |r.links| - 1 ensures Spans(r.links[k], r.links[k + 1], r.base) {
      SpanUnmarked(t.links[k], t.links[k + 1], t.base);
    }
  }

  lemma SpanUnmarked(l: Link, m: Link, base: u32)
    requires Spans(l, m, base)
    ensures Spans(Unmarked(l), Unmarked(m), base)
  {
  }

  lemma BackMade(t: Table, r: Table, hop: nat)
    requires AllMade(t.links) && Neat(t, hop) && Ended(t.links) && AllSpan(t.links, t.base)
    requires Same(r, t.(links := Clean(t.links)))
    ensures AllMade(r.links) && Neat(r, hop) && Ended(r.links) && AllSpan(r.links, r.base)
  {
    BackSpans(t, r);
    hide AllSpan;
    forall k | 0 <= k < |t.links| ensures LogicalOf(r.links[k]) == LogicalOf(t.links[k]) {
      UnmarkedLogical(t.links[k]);
    }
  }
}
