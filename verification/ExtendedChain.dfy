/**
 The chain of extended boot records behind an extended DOS partition, as values
 (fdisk.c).  Element k of a chain is logical partition k + 5: the parallel
 arrays offsets, buffers, part_table, ext_pointers and changed at index k + 4.
 A pointer into a buffer is the number of the slot it points to.
 */
module ExtendedChain {
  import opened Words
  import opened Chs

  const MAXIMUM_PARTS := 60
  const MOST_LINKS := 56 // MAXIMUM_PARTS without the four primary entries

  datatype Record = Record(offset: u32, slots: seq<Part>, part: nat, ext: nat, changed: bool) {
    predicate Shaped() {
      |slots| == 4 && part < 4 && ext < 4 && part != ext
    }
  }

  const NO_SLOTS := [NO_PART, NO_PART, NO_PART, NO_PART]

  type Link = l: Record | l.Shaped() witness Record(0, NO_SLOTS, 0, 1, false)

  /** The data entry of a link. */
  function Data(l: Link): Part {
    l.slots[l.part]
  }

  /** The entry that points to the next link. */
  function Next(l: Link): Part {
    l.slots[l.ext]
  }

  function WithData(l: Link, p: Part): (r: Link)
    ensures Data(r) == p && Next(r) == Next(l) && r.offset == l.offset
  {
    l.(slots := l.slots[l.part := p], changed := true)
  }

  function WithNext(l: Link, p: Part, changed: bool): (r: Link)
    ensures Next(r) == p && Data(r) == Data(l) && r.offset == l.offset
  {
    l.(slots := l.slots[l.ext := p], changed := changed)
  }

  /** What a user sees of a logical partition: where it is on the disk and what it holds. */
  datatype Logical = Logical(start: u32, count: u32, kind: u8, chs: Address, endChs: Address)

  function LogicalOf(l: Link): Logical {
    Logical(Add32(l.offset, Data(l).start), Data(l).count, Data(l).kind, Data(l).chs, Data(l).endChs)
  }

  function Logicals(links: seq<Link>): (r: seq<Logical>)
    ensures |r| == |links|
    ensures forall k :: 0 <= k < |r| ==> r[k] == LogicalOf(links[k])
  {
    seq(|links|, k requires 0 <= k < |links| => LogicalOf(links[k]))
  }

  /** Every link pointer, relative to the extended partition, leads to the next link; nothing is said of the last. */
  predicate Chain(links: seq<Link>, base: u32) {
    && 0 < |links| <= MOST_LINKS
    && links[0].offset == base
    && (forall k :: 0 <= k < |links| - 1 ==> Linked(links[k], links[k + 1], base))
  }

  /** The last pointer leads nowhere, so that reading stops there; it may hold a partition. */
  predicate Ends(links: seq<Link>) {
    links != [] ==> Next(links[|links| - 1]).kind != EXTENDED
  }

  /** The last pointer is empty. */
  predicate Ended(links: seq<Link>) {
    links != [] ==> Next(links[|links| - 1]).kind == 0
  }

  predicate Linked(l: Link, m: Link, base: u32) {
    Next(l).kind == EXTENDED && Add32(base, Next(l).start) == m.offset
  }

  // ----- deleting

  /** A link pointer that leads where `q` leads. */
  function Redirected(q: Part): Part {
    Part(0, q.chs, EXTENDED, q.endChs, q.start, q.count)
  }

  /** A link moved to the head of the chain, with its partition where it was. */
  function Rebased(l: Link, base: u32): (r: Link)
    ensures Next(r) == Next(l) && r.offset == base && LogicalOf(r) == LogicalOf(l)
  {
    WithData(l, Data(l).(start := Sub32(Add32(Data(l).start, l.offset), base))).(offset := base)
  }

  /** What delete_partition makes of the chain when it deletes logical partition k + 5. */
  function Delete(links: seq<Link>, base: u32, k: nat): seq<Link>
    requires k < |links|
  {
    var n := |links|;
    if 0 < k && Next(links[k]).kind == 0 then
      links[..n - 1][k - 1 := WithNext(links[k - 1], NO_PART, links[k - 1].changed)]
    else if 0 < k then
      links[..k - 1] + [WithNext(links[k - 1], Redirected(Next(links[k])), true)] + links[k + 1..]
    else if 1 < n then
      [Rebased(links[1], base)] + links[2..]
    else
      [WithData(links[0], NO_PART)]
  }

  /** The same, the way the arrays get there: the pointers first, then the gap. */
  lemma DeleteInPlace(links: seq<Link>, base: u32, k: nat)
    requires k < |links|
    ensures 0 < k && Next(links[k]).kind == 0 ==>
      Delete(links, base, k) == links[..|links| - 1][k - 1 := WithNext(links[k - 1], NO_PART, links[k - 1].changed)]
    ensures 0 < k && Next(links[k]).kind != 0 ==>
      Delete(links, base, k) ==
        GapClosed(links[k - 1 := WithNext(links[k - 1], Redirected(Next(links[k])), true)], k)
    ensures k == 0 && 1 < |links| ==> Delete(links, base, k) == GapClosed(links[1 := Rebased(links[1], base)], k)
    ensures |links| == 1 ==> Delete(links, base, k) == [WithData(links[0], NO_PART)]
  {
    hide WithNext, WithData, Rebased, Redirected, Next, GapClosed;
    if 0 < k {
      GapBehind(links, k, WithNext(links[k - 1], Redirected(Next(links[k])), true));
    } else if 1 < |links| {
      GapInFront(links, Rebased(links[1], base));
    }
  }

  function GapClosed(links: seq<Link>, k: nat): seq<Link>
    requires k < |links|
  {
    links[..k] + links[k + 1..]
  }

  lemma GapBehind(links: seq<Link>, k: nat, l: Link)
    requires 0 < k < |links|
    ensures GapClosed(links[k - 1 := l], k) == links[..k - 1] + [l] + links[k + 1..]
  {
  }

  lemma GapInFront(links: seq<Link>, l: Link)
    requires 1 < |links|
    ensures GapClosed(links[1 := l], 0) == [l] + links[2..]
  {
  }

  function EmptyLogical(base: u32): Logical {
    Logical(base, 0, 0, NO_ADDRESS, NO_ADDRESS)
  }

  /** The logical partitions after deleting the one at `k`; the fifth partition is never removed, only emptied. */
  function Deleted(ls: seq<Logical>, base: u32, k: nat): seq<Logical>
    requires k < |ls|
  {
    if |ls| == 1 then [EmptyLogical(base)] else ls[..k] + ls[k + 1..]
  }

  lemma DeleteLast(links: seq<Link>, base: u32, k: nat)
    requires Chain(links, base) && 0 < k < |links| && Next(links[k]).kind == 0
    ensures Chain(Delete(links, base, k), base)
    ensures Logicals(Delete(links, base, k)) == Deleted(Logicals(links), base, k)
  {
    hide WithNext, Data, Next, Add32;
    var n, r := |links|, Delete(links, base, k);
    assert k < n - 1 ==> Linked(links[k], links[k + 1], base);
    forall j | 0 <= j < n - 2 ensures Linked(r[j], r[j + 1], base) {
      assert Linked(links[j], links[j + 1], base);
    }
  }

  lemma DeleteMiddle(links: seq<Link>, base: u32, k: nat)
    requires Chain(links, base) && 0 < k < |links| && Next(links[k]).kind != 0
    ensures Chain(Delete(links, base, k), base)
  {
    hide WithNext, Data, Next, Add32, LogicalOf;
    var n, r := |links|, Delete(links, base, k);
    forall j | 0 <= j < n - 2 ensures Linked(r[j], r[j + 1], base) {
      assert Linked(links[j], links[j + 1], base) && Linked(links[j + 1], links[j + 2], base);
    }
  }

  lemma DeleteMiddleKeeps(links: seq<Link>, base: u32, k: nat)
    requires 0 < k < |links| && Next(links[k]).kind != 0
    ensures Logicals(Delete(links, base, k)) == Deleted(Logicals(links), base, k)
  {
    hide WithNext, Data, Next, Add32, LogicalOf;
    var r := Delete(links, base, k);
    assert r[..k - 1] == links[..k - 1] && r[k..] == links[k + 1..];
    RelinkedLogical(links[k - 1], Redirected(Next(links[k])), true);
  }

  lemma RelinkedLogical(link: Link, next: Part, changed: bool)
    ensures LogicalOf(WithNext(link, next, changed)) == LogicalOf(link)
  {
  }

  lemma DeleteFirst(links: seq<Link>, base: u32)
    requires Chain(links, base) && 1 < |links|
    ensures Chain(Delete(links, base, 0), base)
    ensures Logicals(Delete(links, base, 0)) == Deleted(Logicals(links), base, 0)
  {
    hide WithData, Data, Next, Add32, Rebased;
    var n, r := |links|, Delete(links, base, 0);
    forall j | 0 <= j < n - 2 ensures Linked(r[j], r[j + 1], base) {
      assert Linked(links[j + 1], links[j + 2], base);
    }
  }

  /** Deleting from any chain keeps it one, and every other logical partition exactly where it was. */
  lemma DeleteKeepsChain(links: seq<Link>, base: u32, k: nat)
    requires Chain(links, base) && k < |links|
    ensures Chain(Delete(links, base, k), base)
    ensures Logicals(Delete(links, base, k)) == Deleted(Logicals(links), base, k)
  {
    if 0 < k {
      if Next(links[k]).kind == 0 {
        DeleteLast(links, base, k);
      } else {
        DeleteMiddle(links, base, k);
        DeleteMiddleKeeps(links, base, k);
      }
    } else if 1 < |links| {
      DeleteFirst(links, base);
    }
  }

  /** The last link is deleted, and its pointer holds a partition instead of being empty. */
  predicate Strays(links: seq<Link>, k: nat)
    requires k < |links|
  {
    0 < k == |links| - 1 && Next(links[k]).kind != 0
  }

  /** What the last pointer is after a deletion. */
  lemma DeletedEnd(links: seq<Link>, base: u32, k: nat)
    requires Chain(links, base) && k < |links|
    ensures var n, r := |links|, Delete(links, base, k);
      && r != []
      && Next(r[|r| - 1]) ==
         if k < n - 1 || n == 1 then Next(links[n - 1])
         else if Next(links[k]).kind == 0 then NO_PART else Redirected(Next(links[k]))
  {
    MiddlePoints(links, base, k);
    hide WithNext, WithData, Rebased, Redirected, Next, Linked, Chain;
    var n, r := |links|, Delete(links, base, k);
    if k == n - 1 && 0 < k {
      assert r[n - 2] == if Next(links[k]).kind == 0 then WithNext(links[k - 1], NO_PART, links[k - 1].changed)
                         else WithNext(links[k - 1], Redirected(Next(links[k])), true);
    } else if 0 < k {
      assert r[n - 2] == links[n - 1];
    } else if 1 < n {
      assert r[n - 2] == if n == 2 then Rebased(links[1], base) else links[n - 1];
    }
  }

  lemma MiddlePoints(links: seq<Link>, base: u32, k: nat)
    requires Chain(links, base) && k < |links|
    ensures k < |links| - 1 ==> Next(links[k]).kind == EXTENDED
  {
    assert k < |links| - 1 ==> Linked(links[k], links[k + 1], base);
  }

  /**
   A chain still ends after a deletion exactly if it did before, or its last link is
   deleted, and that link's own pointer is empty: otherwise what the pointer holds
   becomes a link pointer, even if it is a partition.
   */
  lemma DeleteEndsIff(links: seq<Link>, base: u32, k: nat)
    requires Chain(links, base) && k < |links|
    ensures Ends(Delete(links, base, k)) <==> !Strays(links, k) && (Ends(links) || 0 < k == |links| - 1)
    ensures Ended(links) ==> Ended(Delete(links, base, k)) && !Strays(links, k)
  {
    DeletedEnd(links, base, k);
    hide Delete, Chain, Redirected, Next;
    RedirectedKind(Next(links[k]));
  }

  lemma RedirectedKind(q: Part)
    ensures Redirected(q).kind == EXTENDED
  {
  }

  // ----- adding

  /** The chain that add_logical gives to add_partition: with a blank link at the end,
      unless the fifth partition is free. */
  function Opened(links: seq<Link>, changed: bool): (r: seq<Link>)
    requires 0 < |links|
    ensures |links| <= |r| <= |links| + 1
  {
    if 1 < |links| || Data(links[0]).kind != 0 then links + [Record(0, NO_SLOTS, 0, 1, changed)] else links
  }

  /** What add_partition makes of an opened chain once the sectors of the new partition are settled. */
  function Filled(links: seq<Link>, base: u32, g: Geometry, dos: bool, start: u32, stop: u32,
      sectorOffset: u32): seq<Link>
    requires 0 < |links| && g.Sane()
  {
    var n := |links| - 1;
    if n == 0 then
      [WithData(links[0], SetPartition(g, dos, start, stop, LINUX_NATIVE, links[0].offset))]
    else
      var table := Sub32(start, sectorOffset);
      var data := SetPartition(g, dos, start, stop, LINUX_NATIVE, table);
      var link := SetPartition(g, dos, table, stop, EXTENDED, base);
      links[..n - 1] + [WithNext(links[n - 1], link, true), WithData(links[n].(offset := table), data)]
  }

  /** The logical partition that add_partition describes. */
  function NewLogical(g: Geometry, dos: bool, start: u32, stop: u32): Logical
    requires g.Sane()
  {
    Logical(start, Add32(Sub32(stop, start), 1), LINUX_NATIVE,
            SetHsc(g, Clamp(g, dos, start)), SetHsc(g, Clamp(g, dos, stop)))
  }

  /** The logical partitions after adding one: it takes the place of an empty fifth partition, or comes last. */
  function Added(ls: seq<Logical>, l: Logical): seq<Logical>
    requires 0 < |ls|
  {
    if |ls| == 1 && ls[0].kind == 0 then [l] else ls + [l]
  }

  /** All links but the last two are those there were. */
  lemma FilledFront(links: seq<Link>, base: u32, g: Geometry, dos: bool, start: u32, stop: u32,
      sectorOffset: u32, changed: bool)
    requires 0 < |links| && g.Sane()
    ensures var ready := Opened(links, changed);
      var n, r := |ready| - 1, Filled(ready, base, g, dos, start, stop, sectorOffset);
      && |r| == n + 1 && (n == 0 ==> |links| == 1 && ready == links && LogicalOf(links[0]).kind == 0)
      && (0 < n ==> n == |links| && ready[..n] == links && r[..n - 1] == links[..n - 1]
                    && (n == 1 ==> LogicalOf(links[0]).kind != 0))
  {
    hide WithNext, WithData, SetPartition, Next, LogicalOf, Data;
    EmptyFifth(links[0]);
  }

  lemma AddLinks(links: seq<Link>, base: u32, g: Geometry, dos: bool, start: u32, stop: u32,
      sectorOffset: u32, changed: bool)
    requires Chain(links, base) && |links| < MOST_LINKS && g.Sane()
    ensures Chain(Filled(Opened(links, changed), base, g, dos, start, stop, sectorOffset), base)
  {
    FilledFront(links, base, g, dos, start, stop, sectorOffset, changed);
    FilledLink(Opened(links, changed), base, g, dos, start, stop, sectorOffset);
    hide Opened, Filled, Linked, LogicalOf, NewLogical;
    var n, r := |Opened(links, changed)| - 1, Filled(Opened(links, changed), base, g, dos, start, stop, sectorOffset);
    forall j | 0 <= j < n ensures Linked(r[j], r[j + 1], base) {
      if j < n - 1 {
        assert Linked(links[j], links[j + 1], base);
        SameNext(links, r, n, j, base);
      }
    }
  }

  /** Two links that did not change, or of which only the second changed, but not its place, are still linked. */
  lemma SameNext(links: seq<Link>, r: seq<Link>, n: nat, j: nat, base: u32)
    requires j < n - 1 && n == |links| && |r| == n + 1 && r[..n - 1] == links[..n - 1]
    requires r[n - 1].offset == links[n - 1].offset && Linked(links[j], links[j + 1], base)
    ensures Linked(r[j], r[j + 1], base)
  {
    assert r[..n - 1][j] == links[..n - 1][j];
    assert j < n - 2 ==> r[..n - 1][j + 1] == links[..n - 1][j + 1];
  }

  lemma AddLogicals(links: seq<Link>, base: u32, g: Geometry, dos: bool, start: u32, stop: u32,
      sectorOffset: u32, changed: bool)
    requires 0 < |links| && g.Sane()
    ensures Logicals(Filled(Opened(links, changed), base, g, dos, start, stop, sectorOffset)) ==
      Added(Logicals(links), NewLogical(g, dos, start, stop))
  {
    FilledFront(links, base, g, dos, start, stop, sectorOffset, changed);
    FilledLink(Opened(links, changed), base, g, dos, start, stop, sectorOffset);
    hide Opened, Filled, Linked, LogicalOf, NewLogical;
    var ready := Opened(links, changed);
    var n, r := |ready| - 1, Filled(ready, base, g, dos, start, stop, sectorOffset);
    if 0 < n {
      assert ready[..n][n - 1] == links[n - 1];
      LogicalsGrow(links, r, n);
    } else {
      assert Logicals(r) == [LogicalOf(r[0])];
    }
  }

  lemma LogicalsGrow(links: seq<Link>, r: seq<Link>, n: nat)
    requires 0 < n == |links| && |r| == n + 1 && r[..n - 1] == links[..n - 1]
    requires LogicalOf(r[n - 1]) == LogicalOf(links[n - 1])
    ensures Logicals(r) == Logicals(links) + [LogicalOf(r[n])]
  {
    hide LogicalOf;
    forall j | 0 <= j < n - 1 ensures r[j] == links[j] {
      assert r[..n - 1][j] == links[..n - 1][j];
    }
  }

  /** Adding keeps the chain and every other logical partition, and the new one gets exactly the sectors asked for. */
  lemma AddKeepsChain(links: seq<Link>, base: u32, g: Geometry, dos: bool, start: u32, stop: u32,
      sectorOffset: u32, changed: bool)
    requires Chain(links, base) && |links| < MOST_LINKS && g.Sane()
    ensures var r := Filled(Opened(links, changed), base, g, dos, start, stop, sectorOffset);
      && Chain(r, base)
      && Logicals(r) == Added(Logicals(links), NewLogical(g, dos, start, stop))
  {
    ChainNonEmpty(links, base);
    hide *;
    AddLinks(links, base, g, dos, start, stop, sectorOffset, changed);
    AddLogicals(links, base, g, dos, start, stop, sectorOffset, changed);
  }

  lemma ChainNonEmpty(links: seq<Link>, base: u32)
    requires Chain(links, base)
    ensures 0 < |links| <= MOST_LINKS
  {
  }

  /** Adding a link ends the chain, whatever its last pointer was; filling the fifth partition leaves that alone. */
  lemma AddEndsIff(links: seq<Link>, base: u32, g: Geometry, dos: bool, start: u32, stop: u32,
      sectorOffset: u32, changed: bool)
    requires 0 < |links| && g.Sane()
    ensures var r := Filled(Opened(links, changed), base, g, dos, start, stop, sectorOffset);
      && (Ends(r) <==> Ends(links) || |links| < |Opened(links, changed)|)
      && (Ended(r) <==> Ended(links) || |links| < |Opened(links, changed)|)
  {
    hide WithNext, WithData, SetPartition, Next, Data, LogicalOf;
    BlankLink(changed);
    FilledLink(Opened(links, changed), base, g, dos, start, stop, sectorOffset);
  }

  lemma EmptyFifth(l: Link)
    ensures LogicalOf(l).kind == Data(l).kind
  {
  }

  /** The last two links after filling: the new partition, and the pointer to it. */
  lemma FilledLink(links: seq<Link>, base: u32, g: Geometry, dos: bool, start: u32, stop: u32, sectorOffset: u32)
    requires 0 < |links| && g.Sane()
    ensures var n, r := |links| - 1, Filled(links, base, g, dos, start, stop, sectorOffset);
      && |r| == |links| && LogicalOf(r[n]) == NewLogical(g, dos, start, stop) && Next(r[n]) == Next(links[n])
      && (n == 0 ==> r[0].offset == links[0].offset)
      && (0 < n ==> LogicalOf(r[n - 1]) == LogicalOf(links[n - 1]) && r[n - 1].offset == links[n - 1].offset)
      && (0 < n ==> Linked(r[n - 1], r[n], base))
  {
    hide WithNext, WithData, SetPartition, NewLogical, Next, Data, LogicalOf;
    var n := |links| - 1;
    if n == 0 {
      NewData(links[0], g, dos, start, stop);
    } else {
      var table := Sub32(start, sectorOffset);
      NewData(links[n].(offset := table), g, dos, start, stop);
      NewPointer(links[n - 1], g, dos, table, stop, base);
      MovedKeeps(links[n], table);
    }
  }

  lemma MovedKeeps(l: Link, offset: u32)
    ensures var m: Link := l.(offset := offset); Next(m) == Next(l)
  {
  }

  lemma NewData(l: Link, g: Geometry, dos: bool, start: u32, stop: u32)
    requires g.Sane()
    ensures LogicalOf(WithData(l, SetPartition(g, dos, start, stop, LINUX_NATIVE, l.offset))) ==
      NewLogical(g, dos, start, stop)
  {
    hide WithData, SetHsc, Clamp, Data;
  }

  lemma NewPointer(l: Link, g: Geometry, dos: bool, table: u32, stop: u32, base: u32)
    requires g.Sane()
    ensures var m := WithNext(l, SetPartition(g, dos, table, stop, EXTENDED, base), true);
      LogicalOf(m) == LogicalOf(l) && Next(m).kind == EXTENDED && Add32(base, Next(m).start) == table
  {
    hide WithNext, SetHsc, Clamp, Data, Next;
  }

  lemma BlankLink(changed: bool)
    ensures var l: Link := Record(0, NO_SLOTS, 0, 1, changed); Next(l) == NO_PART && Data(l) == NO_PART
  {
  }

  // ----- reading

  /** The sectors of a disk that can be read, as partition tables. */
  type Disk = map<u32, seq<Part>>

  /** The first slot from `i` on that holds a link pointer, or else a partition; 4 if there is none. */
  function FirstSlot(slots: seq<Part>, link: bool, i: nat): (r: nat)
    requires |slots| == 4 && i <= 4
    ensures i <= r <= 4
    ensures r < 4 ==> Holds(slots[r], link)
    ensures forall j :: i <= j < r ==> !Holds(slots[j], link)
    decreases 4 - i
  {
    if i == 4 || Holds(slots[i], link) then i else FirstSlot(slots, link, i + 1)
  }

  predicate Holds(p: Part, link: bool) {
    if link then p.kind == EXTENDED else p.kind != 0 && p.kind != EXTENDED
  }

  /** The slots that read_extended takes for the partition and for the link pointer. */
  function DataSlot(slots: seq<Part>): (r: nat)
    requires |slots| == 4
    ensures r < 4
  {
    var d := FirstSlot(slots, false, 0);
    if d < 4 then d else if FirstSlot(slots, true, 0) != 0 then 0 else 1
  }

  function NextSlot(slots: seq<Part>): (r: nat)
    requires |slots| == 4
    ensures r < 4 && r != DataSlot(slots)
  {
    var e := FirstSlot(slots, true, 0);
    if e < 4 then e else if DataSlot(slots) != 0 then 0 else 1
  }

  function LinkAt(offset: u32, slots: seq<Part>): Link
    requires |slots| == 4
  {
    Record(offset, slots, DataSlot(slots), NextSlot(slots), false)
  }

  /** Every sector holds a table of four entries. */
  predicate Tables(disk: Disk) {
    forall x :: x in disk ==> |disk[x]| == 4
  }

  datatype Reading = Unreadable | Read(links: seq<Link>)

  /**
   What read_extended makes of a disk when it follows the pointer `p`, with
   `links` already read: a sector that cannot be read is fatal, and a pointer
   that no link is left for is cleared.
   */
  function ReadFrom(disk: Disk, base: u32, p: Part, links: seq<Link>): Reading
    requires Tables(disk) && |links| <= MOST_LINKS
    decreases MOST_LINKS - |links|
  {
    if p.kind != EXTENDED then Read(links)
    else if |links| == MOST_LINKS then
      Read(links[MOST_LINKS - 1 := WithNext(links[MOST_LINKS - 1], NO_PART, true)])
    else
      var offset := if links == [] then p.start else Add32(base, p.start);
      if offset !in disk then Unreadable
      else
        var l := LinkAt(offset, disk[offset]);
        ReadFrom(disk, base, Next(l), links + [l])
  }

  /** The links fit together. */
  predicate Connected(links: seq<Link>, base: u32) {
    && (0 < |links| ==> links[0].offset == base)
    && forall k :: 0 <= k < |links| - 1 ==> Linked(links[k], links[k + 1], base)
  }

  /** Whatever the disk holds, even a pointer back into the chain, reading ends with at most 56
      links that fit together. */
  lemma {:induction false} ReadConnected(disk: Disk, base: u32, p: Part, links: seq<Link>)
    requires Tables(disk) && |links| <= MOST_LINKS && Connected(links, base)
    requires p == if links == [] then p.(start := base) else Next(links[|links| - 1])
    ensures var r := ReadFrom(disk, base, p, links);
      r.Read? ==>
        && |links| <= |r.links| <= MOST_LINKS && Connected(r.links, base) && Ends(r.links)
        && (p.kind == EXTENDED ==> Chain(r.links, base))
    decreases MOST_LINKS - |links|
  {
    hide WithNext, Next, LinkAt;
    var n := |links|;
    if p.kind == EXTENDED {
      if n == MOST_LINKS {
        assert Linked(links[n - 2], links[n - 1], base);
        assert forall k :: 0 <= k < n - 1 ==> Linked(links[k], links[k + 1], base);
      } else {
        var offset := if links == [] then p.start else Add32(base, p.start);
        if offset in disk {
          var l := LinkAt(offset, disk[offset]);
          LinkOffset(offset, disk[offset]);
          forall k | 0 <= k < n ensures Linked((links + [l])[k], (links + [l])[k + 1], base) {
            assert k < n - 1 ==> Linked(links[k], links[k + 1], base);
          }
          ReadConnected(disk, base, Next(l), links + [l]);
        }
      }
    }
  }

  lemma LinkOffset(offset: u32, slots: seq<Part>)
    requires |slots| == 4
    ensures LinkAt(offset, slots).offset == offset && LinkAt(offset, slots).slots == slots
  {
  }
}
