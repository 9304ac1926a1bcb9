/** Writing a chain of extended boot records and reading it back (write_table and read_extended in fdisk.c). */
module ChainFiles {
  import opened Words
  import opened Chs
  import opened ExtendedChain

  /** The chain as it is right after reading, with no buffer marked as changed. */
  function Clean(links: seq<Link>): (r: seq<Link>)
    ensures |r| == |links|
    ensures forall k :: 0 <= k < |r| ==> r[k] == Unmarked(links[k])
  {
    seq(|links|, k requires 0 <= k < |links| => Unmarked(links[k]))
  }

  function Unmarked(l: Link): Link {
    l.(changed := false)
  }

  /** The disk holds every buffer at its place. */
  predicate Synced(links: seq<Link>, disk: Disk) {
    forall k :: 0 <= k < |links| ==> OnDisk(links[k], disk)
  }

  /** What is not marked is on the disk: what a user may count on before saving. */
  predicate Tracked(links: seq<Link>, disk: Disk) {
    forall k :: 0 <= k < |links| ==> links[k].changed || OnDisk(links[k], disk)
  }

  /** The same for every link but the last, of which a delete may have taken the pointer away unmarked. */
  predicate MostTracked(links: seq<Link>, disk: Disk) {
    forall k :: 0 <= k < |links| - 1 ==> links[k].changed || OnDisk(links[k], disk)
  }

  predicate OnDisk(l: Link, disk: Disk) {
    l.offset in disk && disk[l.offset] == l.slots
  }

  predicate Distinct(links: seq<Link>) {
    forall j, k :: 0 <= j < k < |links| ==> links[j].offset != links[k].offset
  }

  /** The slots in use are those that reading the buffer would choose. */
  predicate Tidy(links: seq<Link>) {
    forall k :: 0 <= k < |links| ==> TidyLink(links[k])
  }

  predicate TidyLink(l: Link) {
    l.part == DataSlot(l.slots) && l.ext == NextSlot(l.slots)
  }

  /** The entry that leads to link `k`: the primary one for the first link. */
  function Pointer(links: seq<Link>, primary: Part, k: nat): Part
    requires k <= |links|
  {
    if k == 0 then primary else Next(links[k - 1])
  }

  lemma ReadStep(disk: Disk, base: u32, p: Part, done: seq<Link>, l: Link)
    requires Tables(disk) && |done| < MOST_LINKS && OnDisk(l, disk) && TidyLink(l)
    requires p.kind == EXTENDED && l.offset == if done == [] then p.start else Add32(base, p.start)
    ensures ReadFrom(disk, base, p, done) == ReadFrom(disk, base, Next(l), done + [Unmarked(l)])
  {
    hide DataSlot, NextSlot;
    assert LinkAt(l.offset, l.slots) == Unmarked(l);
  }

  /** Reading follows a chain that is on the disk to its end. */
  lemma {:induction false} ReadBack(links: seq<Link>, base: u32, primary: Part, disk: Disk, k: nat)
    requires Chain(links, base) && Ends(links) && Synced(links, disk) && Tidy(links) && Tables(disk) && k <= |links|
    requires primary.kind == EXTENDED && primary.start == base
    ensures ReadFrom(disk, base, Pointer(links, primary, k), Clean(links[..k])) == Read(Clean(links))
    decreases |links| - k
  {
    hide Next, OnDisk, TidyLink, Tables;
    if k == |links| {
      assert links[..k] == links;
    } else {
      assert 0 < k ==> Linked(links[k - 1], links[k], base);
      ReadStep(disk, base, Pointer(links, primary, k), Clean(links[..k]), links[k]);
      assert Clean(links[..k]) + [Unmarked(links[k])] == Clean(links[..k + 1]);
      ReadBack(links, base, primary, disk, k + 1);
    }
  }

  /** Whatever was read without giving up on a pointer is on the disk, with the slots that reading chooses. */
  lemma {:induction false} ReadSynced(disk: Disk, base: u32, p: Part, done: seq<Link>)
    requires Tables(disk) && |done| <= MOST_LINKS && Synced(done, disk) && Tidy(done)
    ensures var r := ReadFrom(disk, base, p, done);
      r.Read? && Clean(r.links) == r.links ==> Synced(r.links, disk) && Tidy(r.links)
    decreases MOST_LINKS - |done|
  {
    hide WithNext, Next, LinkAt, TidyLink;
    if p.kind == EXTENDED {
      if |done| == MOST_LINKS {
        Marked(done[MOST_LINKS - 1]);
      } else {
        var offset := if done == [] then p.start else Add32(base, p.start);
        if offset in disk {
          var l := LinkAt(offset, disk[offset]);
          LinkOffset(offset, disk[offset]);
          LinkTidy(offset, disk[offset]);
          ReadSynced(disk, base, Next(l), done + [l]);
        }
      }
    }
  }

  /** Even when reading gives up on the last pointer, all links but the last are on the disk as they are. */
  lemma {:induction false} ReadMost(disk: Disk, base: u32, p: Part, done: seq<Link>)
    requires Tables(disk) && |done| <= MOST_LINKS && Synced(done, disk)
    ensures var r := ReadFrom(disk, base, p, done); r.Read? ==> MostTracked(r.links, disk)
    decreases MOST_LINKS - |done|
  {
    hide WithNext, Next, LinkAt;
    if p.kind == EXTENDED && |done| < MOST_LINKS {
      var offset := if done == [] then p.start else Add32(base, p.start);
      if offset in disk {
        LinkOffset(offset, disk[offset]);
        ReadMost(disk, base, Next(LinkAt(offset, disk[offset])), done + [LinkAt(offset, disk[offset])]);
      }
    }
  }

  lemma LinkTidy(offset: u32, slots: seq<Part>)
    requires |slots| == 4
    ensures TidyLink(LinkAt(offset, slots))
  {
  }

  lemma Marked(l: Link)
    ensures WithNext(l, NO_PART, true) != Unmarked(WithNext(l, NO_PART, true))
  {
  }

  /** A chain can only be on a disk if no two of its links share a sector. */
  lemma {:induction false} SyncedDistinct(links: seq<Link>, base: u32, disk: Disk, j: nat, k: nat)
    requires Chain(links, base) && Ends(links) && Synced(links, disk) && Tidy(links) && j < k < |links|
    ensures links[j].offset != links[k].offset
    decreases |links| - k
  {
    assert OnDisk(links[j], disk) && OnDisk(links[k], disk) && TidyLink(links[j]) && TidyLink(links[k]);
    assert Linked(links[j], links[j + 1], base);
    if k < |links| - 1 {
      assert Linked(links[k], links[k + 1], base);
      SyncedDistinct(links, base, disk, j + 1, k + 1);
    }
  }

  // ----- writing

  /** write_table, for the extended boot records: the marked buffers, in order. */
  function Write(disk: Disk, links: seq<Link>): Disk {
    if links == [] then disk
    else
      var l := links[|links| - 1];
      var before := Write(disk, links[..|links| - 1]);
      if l.changed then before[l.offset := l.slots] else before
  }

  lemma {:induction false} WriteAt(disk: Disk, links: seq<Link>, x: u32)
    ensures (forall k :: 0 <= k < |links| ==> links[k].offset != x || !links[k].changed) ==>
      (x in Write(disk, links) <==> x in disk) && (x in disk ==> Write(disk, links)[x] == disk[x])
    ensures Tables(disk) ==> Tables(Write(disk, links))
  {
    if links != [] {
      WriteAt(disk, links[..|links| - 1], x);
    }
  }

  /** A marked buffer reaches the disk if no other link uses its sector. */
  lemma {:induction false} WriteReaches(disk: Disk, links: seq<Link>, k: nat)
    requires k < |links| && forall j :: 0 <= j < |links| && j != k ==> links[j].offset != links[k].offset
    ensures OnDisk(links[k], Write(disk, links)) <==> links[k].changed || OnDisk(links[k], disk)
  {
    var n := |links| - 1;
    if k == n {
      WriteAt(disk, links[..n], links[k].offset);
    } else {
      WriteReaches(disk, links[..n], k);
    }
  }

  /** After writing, a chain of different sectors is on the disk exactly if what was not marked was there before. */
  lemma WriteSyncs(disk: Disk, links: seq<Link>)
    requires Distinct(links)
    ensures Synced(links, Write(disk, links)) <==> Tracked(links, disk)
  {
    hide OnDisk, Write;
    forall k | 0 <= k < |links|
      ensures OnDisk(links[k], Write(disk, links)) <==> links[k].changed || OnDisk(links[k], disk)
    {
      WriteReaches(disk, links, k);
    }
  }

  /**
   Writing the marked buffers and reading the disk reproduces the chain exactly if its
   links lie at different sectors and use the slots that reading chooses, what is not
   marked is on the disk, and the last pointer leads nowhere.
   */
  lemma ChainRoundTripIff(links: seq<Link>, base: u32, primary: Part, disk: Disk)
    requires Chain(links, base) && Tables(disk)
    requires primary.kind == EXTENDED && primary.start == base
    ensures Tables(Write(disk, links))
    ensures ReadFrom(Write(disk, links), base, primary, []) == Read(Clean(links)) <==>
      Distinct(links) && Tidy(links) && Tracked(links, disk) && Ends(links)
  {
    hide OnDisk, TidyLink, Write, ReadFrom, Linked, Next, Distinct, Tidy, Tracked, Synced, Chain;
    var after := Write(disk, links);
    WriteAt(disk, links, 0);
    if Distinct(links) && Tidy(links) && Tracked(links, disk) && Ends(links) {
      WriteSyncs(disk, links);
      ReadBack(links, base, primary, after, 0);
      assert Clean(links[..0]) == [];
    }
    if ReadFrom(after, base, primary, []) == Read(Clean(links)) {
      ReproducedSynced(links, base, primary, after);
      ReproducedDistinct(links, base, after);
      WriteSyncs(disk, links);
    }
  }

  /** What reading reproduces is on the disk, as reading would lay it out, and ends. */
  lemma ReproducedSynced(links: seq<Link>, base: u32, primary: Part, disk: Disk)
    requires Tables(disk) && primary.kind == EXTENDED && primary.start == base
    requires ReadFrom(disk, base, primary, []) == Read(Clean(links))
    ensures Synced(links, disk) && Tidy(links) && Ends(links)
  {
    hide OnDisk, TidyLink, ReadFrom, Chain, Connected;
    ReadSynced(disk, base, primary, []);
    assert Connected([], base) by {
      NoneConnected(base);
    }
    ReadConnected(disk, base, primary, []);
    CleanTwice(links);
    UnmarkedSynced(links, disk);
    UnmarkedTidy(links);
  }

  lemma NoneConnected(base: u32)
    ensures Connected([], base)
  {
  }

  lemma ReproducedDistinct(links: seq<Link>, base: u32, disk: Disk)
    requires Chain(links, base) && Ends(links) && Synced(links, disk) && Tidy(links)
    ensures Distinct(links)
  {
    hide Chain, Ends, Synced, Tidy;
    forall j, k | 0 <= j < k < |links| ensures links[j].offset != links[k].offset {
      SyncedDistinct(links, base, disk, j, k);
    }
  }

  lemma UnmarkedTidy(links: seq<Link>)
    ensures Tidy(Clean(links)) <==> Tidy(links)
  {
    forall k | 0 <= k < |links| ensures TidyLink(Clean(links)[k]) <==> TidyLink(links[k]) {
    }
  }

  lemma CleanTwice(links: seq<Link>)
    ensures Clean(Clean(links)) == Clean(links)
  {
  }

  lemma UnmarkedSynced(links: seq<Link>, disk: Disk)
    ensures Synced(Clean(links), disk) <==> Synced(links, disk)
  {
    forall k | 0 <= k < |links| ensures OnDisk(Clean(links)[k], disk) <==> OnDisk(links[k], disk) {
    }
  }

  // ----- deleting and then writing

  /** The last link of several, with no pointer behind it, is deleted, and no mark makes write_table
      rewrite the pointer to it. */
  predicate Forgotten(links: seq<Link>, k: nat)
    requires k < |links|
  {
    0 < k == |links| - 1 && Next(links[k]).kind == 0 && !links[k - 1].changed
  }

  lemma DeleteOffsets(links: seq<Link>, base: u32, k: nat)
    requires Chain(links, base) && Distinct(links) && k < |links|
    ensures Distinct(Delete(links, base, k))
  {
    hide WithNext, WithData, Redirected, Next, Rebased;
    var n, r := |links|, Delete(links, base, k);
    DeleteLength(links, base, k);
    assert k < n - 1 ==> Linked(links[k], links[k + 1], base);
    forall j | 0 <= j < |r| ensures r[j].offset == links[Came(links, k, j)].offset {
    }
  }

  /** Where the link at `j` was before the deletion, going by its sector. */
  function Came(links: seq<Link>, k: nat, j: nat): nat {
    if j < k || j == 0 || |links| == 1 then j else j + 1
  }

  /** Which buffers differ from the disk after a deletion, and whether they are marked. */
  lemma DeleteMarks(links: seq<Link>, base: u32, k: nat, disk: Disk, j: nat)
    requires Chain(links, base) && Tracked(links, disk) && k < |links| && j < |Delete(links, base, k)|
    ensures var l := Delete(links, base, k)[j];
      l.changed || OnDisk(l, disk) <==> !(Forgotten(links, k) && j == k - 1)
  {
    hide WithData, Redirected, Rebased;
    var n, l := |links|, Delete(links, base, k)[j];
    assert links[j].changed || OnDisk(links[j], disk);
    assert j < n - 1 ==> (links[j + 1].changed || OnDisk(links[j + 1], disk)) && Linked(links[j], links[j + 1], base);
    assert 0 < k < n - 1 ==> Linked(links[k], links[k + 1], base);
    assert 0 < k && j == k - 1 ==> Linked(links[j], links[k], base);
    if 1 < n && k == 0 && j == 0 {
      RebasedMarked(links[1], base);
    }
    if n == 1 {
      DataMarked(links[0]);
    }
  }

  lemma RebasedMarked(l: Link, base: u32)
    ensures Rebased(l, base).changed
  {
  }

  lemma DataMarked(l: Link)
    ensures WithData(l, NO_PART).changed
  {
  }

  /**
   After a deletion on a chain whose unmarked buffers are on the disk, writing the marked
   ones brings the disk up to date exactly if the deleted partition was not the last
   of several, or the buffer before it was marked already.
   */
  lemma DeleteWriteIff(links: seq<Link>, base: u32, k: nat, disk: Disk)
    requires Chain(links, base) && Distinct(links) && Tracked(links, disk) && k < |links|
    ensures var r := Delete(links, base, k);
      Synced(r, Write(disk, r)) <==> !Forgotten(links, k)
  {
    hide OnDisk, Delete, Write, Chain;
    var r := Delete(links, base, k);
    DeleteOffsets(links, base, k);
    forall j | 0 <= j < |r| ensures OnDisk(r[j], Write(disk, r)) <==> !(Forgotten(links, k) && j == k - 1) {
      WriteReaches(disk, r, j);
      DeleteMarks(links, base, k, disk, j);
    }
    DeleteLength(links, base, k);
    assert Forgotten(links, k) ==> !OnDisk(r[k - 1], Write(disk, r));
  }

  /** Whatever is deleted, only the last link can be left unmarked and different from the disk. */
  lemma DeleteMost(links: seq<Link>, base: u32, k: nat, disk: Disk)
    requires Chain(links, base) && MostTracked(links, disk) && k < |links|
    ensures MostTracked(Delete(links, base, k), disk)
  {
    hide WithData, Redirected, Rebased, OnDisk, Next;
    var n, r := |links|, Delete(links, base, k);
    assert k < n - 1 ==> Linked(links[k], links[k + 1], base);
    forall j | 0 <= j < |r| - 1 ensures r[j].changed || OnDisk(r[j], disk) {
      assert links[j].changed || OnDisk(links[j], disk);
      assert j < n - 2 ==> links[j + 1].changed || OnDisk(links[j + 1], disk);
      if k == 0 && j == 0 {
        RebasedMarked(links[1], base);
      }
    }
  }

  lemma DeleteLength(links: seq<Link>, base: u32, k: nat)
    requires k < |links|
    ensures |Delete(links, base, k)| == if |links| == 1 then 1 else |links| - 1
  {
  }

  /** In the remaining case, on a chain just read, the deleted partition is back as soon as the disk is read again. */
  lemma DeletedReturns(links: seq<Link>, base: u32, primary: Part, disk: Disk)
    requires Chain(links, base) && Synced(links, disk) && Tidy(links) && Tables(disk)
    requires primary.kind == EXTENDED && primary.start == base
    requires 1 < |links| && Clean(links) == links && Forgotten(links, |links| - 1)
    ensures var r := Delete(links, base, |links| - 1);
      Write(disk, r) == disk && ReadFrom(disk, base, primary, []) == Read(links)
  {
    hide OnDisk, TidyLink, ReadFrom;
    var n := |links|;
    var r := Delete(links, base, n - 1);
    forall j | 0 <= j < |r| ensures !r[j].changed {
      assert links[j] == Unmarked(links[j]);
    }
    WriteNothing(disk, r);
    ReadBack(links, base, primary, disk, 0);
    assert Clean(links[..0]) == [];
  }

  /** A disk with two logical partitions on which that happens. */
  lemma DeletedReturnsOnDisk()
    ensures exists links: seq<Link>, base: u32, primary: Part, disk: Disk ::
      && Chain(links, base) && Synced(links, disk) && Tidy(links) && Tables(disk)
      && primary.kind == EXTENDED && primary.start == base
      && |links| == 2 && Clean(links) == links && Forgotten(links, 1) && |Delete(links, base, 1)| == 1
      && Write(disk, Delete(links, base, 1)) == disk && ReadFrom(disk, base, primary, []) == Read(links)
  {
    var data := Part(0, NO_ADDRESS, LINUX_NATIVE, NO_ADDRESS, 1, 40);
    var pointer := Part(0, NO_ADDRESS, EXTENDED, NO_ADDRESS, 50, 41);
    var primary := Part(0, NO_ADDRESS, EXTENDED, NO_ADDRESS, 100, 91);
    var l: Link := Record(100, [data, pointer, NO_PART, NO_PART], 0, 1, false);
    var m: Link := Record(150, [data, NO_PART, NO_PART, NO_PART], 0, 1, false);
    var links, disk: Disk := [l, m], map[100 := l.slots, 150 := m.slots];
    assert TidyLink(l) && TidyLink(m) by {
      TwoSlots(l.slots);
      TwoSlots(m.slots);
    }
    assert Linked(l, m, 100) && OnDisk(l, disk) && OnDisk(m, disk);
    assert Clean(links) == links;
    assert Tables(disk);
    DeletedReturns(links, 100, primary, disk);
  }

  /** A partition in the first slot, and at most a pointer in the second. */
  lemma TwoSlots(slots: seq<Part>)
    requires |slots| == 4 && slots[0].kind != EXTENDED && slots[1].kind in {0, EXTENDED}
    requires slots[2].kind == 0 && slots[3].kind == 0
    ensures DataSlot(slots) == 0 && NextSlot(slots) == 1
  {
    assert FirstSlot(slots, true, 3) == 4 && FirstSlot(slots, false, 3) == 4;
    assert FirstSlot(slots, true, 2) == 4 && FirstSlot(slots, false, 2) == 4;
    assert FirstSlot(slots, true, 0) == FirstSlot(slots, true, 1);
  }

  lemma {:induction false} WriteNothing(disk: Disk, links: seq<Link>)
    requires forall k :: 0 <= k < |links| ==> !links[k].changed
    ensures Write(disk, links) == disk
  {
    if links != [] {
      WriteNothing(disk, links[..|links| - 1]);
    }
  }

  // ----- adding and then writing

  /** Some link lies at sector `x`. */
  predicate Taken(links: seq<Link>, x: u32) {
    exists k :: 0 <= k < |links| && links[k].offset == x
  }

  lemma FilledOffsets(links: seq<Link>, base: u32, g: Geometry, dos: bool, start: u32, stop: u32, sectorOffset: u32,
                      changed: bool)
    requires 0 < |links| && g.Sane()
    ensures var r := Filled(Opened(links, changed), base, g, dos, start, stop, sectorOffset);
      && |r| == |Opened(links, changed)|
      && (forall k :: 0 <= k < |links| ==> r[k].offset == links[k].offset)
      && (|links| < |r| ==> r[|links|].offset == Sub32(start, sectorOffset))
      && (forall k :: 0 <= k < |r| ==> r[k].changed || (k < |links| && r[k] == links[k]))
  {
    hide SetPartition, Data, Next;
  }

  /** Adding marks the last link there was, so that then everything unmarked is on the disk again. */
  lemma AddTracked(links: seq<Link>, base: u32, g: Geometry, dos: bool, start: u32, stop: u32, sectorOffset: u32,
                   changed: bool, disk: Disk)
    requires 0 < |links| && g.Sane() && MostTracked(links, disk)
    ensures Tracked(Filled(Opened(links, changed), base, g, dos, start, stop, sectorOffset), disk)
  {
    hide SetPartition, Data, Next, OnDisk;
    var ready := Opened(links, changed);
    var r := Filled(ready, base, g, dos, start, stop, sectorOffset);
    forall k | 0 <= k < |r| ensures r[k].changed || OnDisk(r[k], disk) {
      assert k < |ready| - 2 ==> r[k] == links[k] && (links[k].changed || OnDisk(links[k], disk));
    }
  }

  /** The disk is up to date after adding and writing if the links still lie at different sectors. */
  lemma AddReaches(links: seq<Link>, base: u32, g: Geometry, dos: bool, start: u32, stop: u32, sectorOffset: u32,
                   changed: bool, disk: Disk)
    requires 0 < |links| && g.Sane() && Distinct(links) && Tracked(links, disk)
    requires |Opened(links, changed)| == |links| || !Taken(links, Sub32(start, sectorOffset))
    ensures var r := Filled(Opened(links, changed), base, g, dos, start, stop, sectorOffset);
      Distinct(r) && Synced(r, Write(disk, r))
  {
    hide Filled, Opened, OnDisk, Write;
    var r := Filled(Opened(links, changed), base, g, dos, start, stop, sectorOffset);
    FilledOffsets(links, base, g, dos, start, stop, sectorOffset, changed);
    OpenedLength(links, changed);
    forall j, k | 0 <= j < k < |r| ensures r[j].offset != r[k].offset {
      assert k == |links| ==> links[j].offset != Sub32(start, sectorOffset);
    }
    forall k | 0 <= k < |r| ensures OnDisk(r[k], Write(disk, r)) {
      WriteReaches(disk, r, k);
    }
  }

  lemma OpenedLength(links: seq<Link>, changed: bool)
    requires 0 < |links|
    ensures |links| <= |Opened(links, changed)| <= |links| + 1
  {
  }

  /** The new link holds no pointer, and of two links at one sector the later one is on the disk. */
  lemma LastWins(links: seq<Link>, base: u32, g: Geometry, dos: bool, start: u32, stop: u32, sectorOffset: u32,
                 changed: bool, disk: Disk)
    requires 0 < |links| && g.Sane() && |links| < |Opened(links, changed)|
    ensures var r := Filled(Opened(links, changed), base, g, dos, start, stop, sectorOffset);
      && |r| == |links| + 1 && OnDisk(r[|links|], Write(disk, r))
      && forall j :: 0 <= j < 4 ==> r[|links|].slots[j].kind != EXTENDED
  {
    hide SetPartition, Data, Next;
    FilledOffsets(links, base, g, dos, start, stop, sectorOffset, changed);
    LinuxKind(g, dos, start, stop, Sub32(start, sectorOffset));
  }

  lemma LinuxKind(g: Geometry, dos: bool, start: u32, stop: u32, offset: u32)
    requires g.Sane()
    ensures SetPartition(g, dos, start, stop, LINUX_NATIVE, offset).kind == LINUX_NATIVE
  {
  }

  /**
   After adding to a chain whose unmarked buffers are on the disk, writing the marked
   ones brings the disk up to date exactly if the new link, where one is needed, does
   not lie at the sector of another.
   */
  lemma AddWriteIff(links: seq<Link>, base: u32, g: Geometry, dos: bool, start: u32, stop: u32, sectorOffset: u32,
                    changed: bool, disk: Disk)
    requires Chain(links, base) && |links| < MOST_LINKS && g.Sane() && Distinct(links) && Tracked(links, disk)
    ensures var r := Filled(Opened(links, changed), base, g, dos, start, stop, sectorOffset);
      Synced(r, Write(disk, r)) <==>
        |Opened(links, changed)| == |links| || !Taken(links, Sub32(start, sectorOffset))
  {
    hide Filled, Opened, Write, Chain, Next;
    ChainNotEmpty(links, base);
    var r := Filled(Opened(links, changed), base, g, dos, start, stop, sectorOffset);
    OpenedLength(links, changed);
    if |Opened(links, changed)| == |links| || !Taken(links, Sub32(start, sectorOffset)) {
      AddReaches(links, base, g, dos, start, stop, sectorOffset, changed, disk);
    } else {
      var k :| 0 <= k < |links| && links[k].offset == Sub32(start, sectorOffset);
      FilledOffsets(links, base, g, dos, start, stop, sectorOffset, changed);
      LastWins(links, base, g, dos, start, stop, sectorOffset, changed, disk);
      AddKeepsChain(links, base, g, dos, start, stop, sectorOffset, changed);
      ChainPointer(r, base, k);
      assert r[k].slots != r[|links|].slots;
      assert !OnDisk(r[k], Write(disk, r));
    }
  }

  lemma ChainNotEmpty(links: seq<Link>, base: u32)
    requires Chain(links, base)
    ensures 0 < |links|
  {
  }

  lemma ChainPointer(links: seq<Link>, base: u32, k: nat)
    requires Chain(links, base) && k < |links| - 1
    ensures links[k].slots[links[k].ext].kind == EXTENDED
  {
    assert Linked(links[k], links[k + 1], base);
  }

  /**
   Otherwise the link that was there is overwritten: what is read back ends with the
   new partition in its place, and it and all partitions behind it are lost.
   */
  lemma AddLoses(links: seq<Link>, base: u32, primary: Part, g: Geometry, dos: bool, start: u32, stop: u32,
                 sectorOffset: u32, changed: bool, disk: Disk, k: nat)
    requires Chain(links, base) && |links| < MOST_LINKS && g.Sane() && Distinct(links) && Tracked(links, disk)
    requires Tables(disk) && primary.kind == EXTENDED && primary.start == base
    requires k < |links| < |Opened(links, changed)| && links[k].offset == Sub32(start, sectorOffset)
    requires Tidy(Filled(Opened(links, changed), base, g, dos, start, stop, sectorOffset))
    ensures var r := Filled(Opened(links, changed), base, g, dos, start, stop, sectorOffset);
      && k < |r| && Tables(Write(disk, r))
      && ReadFrom(Write(disk, r), base, primary, []) == Read(Clean(r[..k]) + [Unmarked(r[|r| - 1])])
  {
    hide Filled, Opened, OnDisk, Write, Chain, TidyLink;
    var r := Filled(Opened(links, changed), base, g, dos, start, stop, sectorOffset);
    FilledOffsets(links, base, g, dos, start, stop, sectorOffset, changed);
    OpenedLength(links, changed);
    LastWins(links, base, g, dos, start, stop, sectorOffset, changed, disk);
    AddKeepsChain(links, base, g, dos, start, stop, sectorOffset, changed);
    AddEndsIff(links, base, g, dos, start, stop, sectorOffset, changed);
    WriteAt(disk, r, 0);
    hide ReadFrom, Tables, Distinct, Tracked, Tidy, Ends, Ended;
    FrontReaches(links, r, disk, k);
    ReadDetour(r, base, primary, Write(disk, r), k, 0);
    assert Clean(r[..0]) == [];
  }

  /** The buffers in front of an overwritten one reach the disk. */
  lemma FrontReaches(links: seq<Link>, r: seq<Link>, disk: Disk, k: nat)
    requires k < |links| && |r| == |links| + 1 && Distinct(links) && Tracked(links, disk)
    requires forall j :: 0 <= j < |links| ==> r[j].offset == links[j].offset && (r[j].changed || r[j] == links[j])
    requires r[|links|].offset == links[k].offset
    ensures forall j :: 0 <= j < k ==> OnDisk(r[j], Write(disk, r))
  {
    hide OnDisk, Write;
    forall j | 0 <= j < k ensures OnDisk(r[j], Write(disk, r)) {
      WriteReaches(disk, r, j);
    }
  }

  /** Reading a chain whose last link lies where link `k` should be. */
  lemma {:induction false} ReadDetour(r: seq<Link>, base: u32, primary: Part, disk: Disk, k: nat, j: nat)
    requires Chain(r, base) && Ends(r) && Tidy(r) && Tables(disk) && j <= k < |r|
    requires primary.kind == EXTENDED && primary.start == base
    requires OnDisk(r[|r| - 1], disk) && r[|r| - 1].offset == r[k].offset
    requires forall i :: 0 <= i < k ==> OnDisk(r[i], disk)
    ensures ReadFrom(disk, base, Pointer(r, primary, j), Clean(r[..j])) == Read(Clean(r[..k]) + [Unmarked(r[|r| - 1])])
    decreases k - j
  {
    hide Next, OnDisk, TidyLink, Tables;
    assert 0 < j ==> Linked(r[j - 1], r[j], base);
    if j == k {
      ReadStep(disk, base, Pointer(r, primary, k), Clean(r[..k]), r[|r| - 1]);
    } else {
      ReadStep(disk, base, Pointer(r, primary, j), Clean(r[..j]), r[j]);
      assert Clean(r[..j]) + [Unmarked(r[j])] == Clean(r[..j + 1]);
      ReadDetour(r, base, primary, disk, k, j + 1);
    }
  }
}
