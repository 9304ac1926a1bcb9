/**
 The partition tables that fdisk edits, as values: the four primary entries
 and the chain behind the extended one.  Partitions are numbered from 0; the
 logical ones start at 4.
 */
module MbrModel {
  import opened Words
  import opened Chs
  import opened ExtendedChain
  import opened GapModel

  const NOWHERE: u32 := 0xffff_ffff

  /** The user's settings; the geometry stays fixed during a run. */
  datatype Settings = Settings(g: Geometry, dos: bool, sectorOffset: u32, unit: bool) {
    /** A disk that leaves room below 2^32 for one round of cylinder numbers. */
    predicate Sane() {
      && g.Sane() && 1 <= g.cylinders
      && (sectorOffset == 1 || sectorOffset == g.sectors)
      && Total() + g.FullBits() <= U32
    }

    /** Sectors on the disk. */
    function Total(): nat {
      g.cylinders * g.Cylinder()
    }

    /** display_factor, as update_units sets it */
    function Factor(): (r: nat)
      requires g.Sane()
      ensures 1 <= r
    {
      CylinderPositive(g);
      if unit then g.Cylinder() else 1
    }
  }

  datatype Table = Table(mbr: seq<Part>, links: seq<Link>, extIndex: nat, base: u32) {
    /** The number of partitions, used or not. */
    function Size(): nat {
      4 + |links|
    }

    function At(i: nat): Logical
      requires |mbr| == 4 && i < Size()
    {
      if i < 4 then Primary(mbr[i]) else LogicalOf(links[i - 4])
    }

    function Offset(i: nat): u32
      requires i < Size()
    {
      if i < 4 then 0 else links[i - 4].offset
    }

    predicate Used(i: nat)
      requires |mbr| == 4 && i < Size()
    {
      At(i).kind != 0
    }

    /** The partition has sectors of its own, rather than logical partitions in it. */
    predicate HoldsData(i: nat)
      requires |mbr| == 4 && i < Size()
    {
      At(i).kind != 0 && At(i).kind != EXTENDED
    }
  }

  function Primary(p: Part): Logical {
    Logical(p.start, p.count, p.kind, p.chs, p.endChs)
  }

  /** The sectors of a partition are on the disk, and its address does not lie after its start. */
  predicate Placed(s: Settings, l: Logical)
    requires s.g.Sane()
  {
    1 <= l.count && l.start + l.count <= s.Total() && Calculate(s.g, l.chs) <= l.start
  }

  predicate Apart(l: Logical, m: Logical) {
    l.start + l.count <= m.start || m.start + m.count <= l.start
  }

  predicate Contains(outer: Logical, l: Logical) {
    outer.start < l.start && l.start + l.count <= outer.start + outer.count
  }

  /** The extended partition, if there is one, is entry extIndex and heads a chain. */
  predicate Headed(t: Table) {
    && |t.mbr| == 4 && |t.links| <= MOST_LINKS && t.extIndex < 4
    && (forall i :: 0 <= i < 4 && t.mbr[i].kind == EXTENDED ==> i == t.extIndex && t.base != 0)
    && (t.base == 0 ==> t.links == [])
    && (t.base != 0 ==>
          t.mbr[t.extIndex].kind == EXTENDED && t.mbr[t.extIndex].start == t.base && Chain(t.links, t.base))
  }

  /** No two partitions share a sector, except that the extended one contains the logical ones. */
  predicate Exclusive(t: Table)
    requires |t.mbr| == 4
  {
    forall i, j :: 0 <= i < j < t.Size() && t.Used(i) && t.Used(j) ==>
      if i == t.extIndex && 4 <= j then Contains(t.At(i), t.At(j)) else Apart(t.At(i), t.At(j))
  }

  /** What every command keeps. */
  predicate Safe(s: Settings, t: Table) {
    && s.g.Sane() && Headed(t) && Exclusive(t)
    && (forall i :: 0 <= i < t.Size() && t.Used(i) ==> Placed(s, t.At(i)))
    && (forall i :: 4 <= i < t.Size() ==> t.At(i).kind != EXTENDED && 0 < t.Offset(i) < s.Total())
  }

  /** No two partitions that hold data share a sector. */
  predicate AllApart(t: Table)
    requires |t.mbr| == 4
  {
    forall i, j :: 0 <= i < j < t.Size() && t.HoldsData(i) && t.HoldsData(j) ==> Apart(t.At(i), t.At(j))
  }

  /** Safe tables in particular. */
  lemma SafeDisjoint(s: Settings, t: Table, i: nat, j: nat)
    requires Safe(s, t) && i < j < t.Size() && t.HoldsData(i) && t.HoldsData(j)
    ensures Apart(t.At(i), t.At(j)) && t.At(j).start + t.At(j).count <= s.Total()
  {
  }

  // ----- deleting

  /** delete_partition */
  function DeleteFrom(t: Table, i: nat): Table
    requires |t.mbr| == 4 && i < t.Size()
  {
    if 4 <= i then t.(links := Delete(t.links, t.base, i - 4))
    else
      var mbr := t.mbr[i := NO_PART];
      if t.mbr[i].kind == EXTENDED && i == t.extIndex then t.(mbr := mbr, links := [], base := 0) else t.(mbr := mbr)
  }

  /** Where partition `j` was before partition `i` was deleted. */
  function Before(t: Table, i: nat, j: nat): nat {
    if j < i || i < 4 || |t.links| == 1 then j else j + 1
  }

  /** The partitions that are left are the ones there were, in the same order. */
  lemma DeleteAt(t: Table, i: nat, j: nat)
    requires Headed(t) && i < t.Size() && j < DeleteFrom(t, i).Size() && DeleteFrom(t, i).Used(j)
    ensures var c := Before(t, i, j);
      c < t.Size() && c != i && DeleteFrom(t, i).At(j) == t.At(c) && (4 <= j <==> 4 <= c)
  {
    hide Headed, Chain, LogicalOf, Delete;
    SafeShape(t);
    if 4 <= i {
      var r := DeleteFrom(t, i);
      if 4 <= j {
        HeadedChain(t);
        DeleteKeepsChain(t.links, t.base, i - 4);
        DeletedAt(Logicals(t.links), t.base, i - 4, j - 4);
        assert r.At(j) == Logicals(r.links)[j - 4];
        assert |Logicals(r.links)| == |Deleted(Logicals(t.links), t.base, i - 4)|;
      }
    }
  }

  /** Deleting partition `i` takes the logical partitions along: it is the one that contains them. */
  predicate TakesLogicals(t: Table, i: nat)
    requires |t.mbr| == 4
  {
    i < 4 && t.mbr[i].kind == EXTENDED
  }

  /**
   In `r` partition `i` of `t` is gone and nothing else: the other primary entries are as
   they were, and every other partition in use is there, the logical ones behind `i` one
   number lower.
   */
  predicate OnlyGone(t: Table, i: nat, r: Table)
    requires |t.mbr| == 4 && i < t.Size()
  {
    && |r.mbr| == 4 && r.extIndex == t.extIndex
    && (forall j :: 0 <= j < 4 && j != i ==> r.mbr[j] == t.mbr[j])
    && (i < 4 ==> r.mbr[i].kind == 0)
    && (if TakesLogicals(t, i) then r.links == [] && r.base == 0
        else if i < 4 then r.links == t.links && r.base == t.base
        else r.base == t.base && r.Size() == (if t.Size() == 5 then 5 else t.Size() - 1))
    && (t.Size() == 5 && i == 4 ==> r.Size() == 5 && !r.Used(4))
    && forall j :: 0 <= j < t.Size() && j != i && t.Used(j) && (4 <= j ==> !TakesLogicals(t, i)) ==>
         var c := if i < 4 || j < i then j else j - 1;
         c < r.Size() && r.At(c) == t.At(j)
  }

  /** Whatever is deleted, everything else survives. */
  lemma DeleteSurvives(t: Table, i: nat)
    requires Headed(t) && i < t.Size()
    ensures OnlyGone(t, i, DeleteFrom(t, i))
  {
    hide Chain, LogicalOf, Delete;
    var r := DeleteFrom(t, i);
    if 4 <= i {
      HeadedChain(t);
      DeleteKeepsChain(t.links, t.base, i - 4);
      assert |Logicals(r.links)| == |Deleted(Logicals(t.links), t.base, i - 4)|;
      assert forall j :: 4 <= j < r.Size() ==> r.At(j) == Logicals(r.links)[j - 4];
      assert forall j :: 4 <= j < t.Size() ==> t.At(j) == Logicals(t.links)[j - 4];
    }
  }

  lemma HeadedChain(t: Table)
    requires Headed(t) && (t.links != [] || t.base != 0)
    ensures Chain(t.links, t.base)
  {
  }

  lemma DeletedAt(ls: seq<Logical>, base: u32, k: nat, m: nat)
    requires k < |ls| && m < |Deleted(ls, base, k)|
    ensures if |ls| == 1 then Deleted(ls, base, k)[m].kind == 0
      else var c := if m < k then m else m + 1; c < |ls| && Deleted(ls, base, k)[m] == ls[c]
  {
  }

  lemma DeleteHeaded(t: Table, i: nat)
    requires Headed(t) && i < t.Size()
    ensures Headed(DeleteFrom(t, i))
  {
    hide Chain, LogicalOf, Delete;
    if 4 <= i {
      DeleteKeepsChain(t.links, t.base, i - 4);
      ChainLength(t.links, t.base, i - 4);
    }
  }

  lemma ChainLength(links: seq<Link>, base: u32, k: nat)
    requires Chain(links, base) && k < |links|
    ensures |Delete(links, base, k)| <= |links| && Delete(links, base, k) != []
  {
  }

  lemma DeleteOffset(t: Table, i: nat, j: nat)
    requires Headed(t) && 4 <= i < t.Size() && 4 <= j < DeleteFrom(t, i).Size()
    ensures exists c :: 4 <= c < t.Size() && DeleteFrom(t, i).Offset(j) == t.Offset(c)
  {
    hide WithNext, WithData, Redirected, Next;
    var c := if j < i || j == 4 then j else j + 1;
    assert 4 < i < t.Size() - 1 ==> Linked(t.links[i - 4], t.links[i - 3], t.base);
    assert DeleteFrom(t, i).Offset(j) == t.Offset(c);
  }

  /** Deleting any partition keeps the table safe. */
  lemma DeleteSafe(s: Settings, t: Table, i: nat)
    requires Safe(s, t) && i < t.Size()
    ensures Safe(s, DeleteFrom(t, i))
  {
    hide Headed, DeleteFrom, Calculate, Apart, Contains, Delete, LogicalOf;
    SafeHeaded(s, t);
    var r := DeleteFrom(t, i);
    DeleteHeaded(t, i);
    DeletedSize(t, i);
    forall j | 0 <= j < r.Size() && r.Used(j)
      ensures Placed(s, r.At(j)) && (4 <= j ==> r.At(j).kind != EXTENDED)
    {
      DeleteAt(t, i, j);
    }
    forall j | 4 <= j < r.Size() ensures 0 < r.Offset(j) < s.Total() {
      if 4 <= i {
        DeleteOffset(t, i, j);
      } else {
        assert r.Offset(j) == t.Offset(j);
      }
    }
    forall j, k | 0 <= j < k < r.Size() && r.Used(j) && r.Used(k)
      ensures if j == r.extIndex && 4 <= k then Contains(r.At(j), r.At(k)) else Apart(r.At(j), r.At(k))
    {
      DeleteAt(t, i, j);
      DeleteAt(t, i, k);
    }
  }

  lemma SafeHeaded(s: Settings, t: Table)
    requires Safe(s, t)
    ensures Headed(t) && |t.mbr| == 4 && t.extIndex < 4
  {
  }

  lemma DeletedSize(t: Table, i: nat)
    requires Headed(t) && i < t.Size()
    ensures var r := DeleteFrom(t, i); |r.mbr| == 4 && r.extIndex == t.extIndex && (i < 4 ==> r.links in {[], t.links})
  {
  }

  // ----- the search for a new partition

  /** A first sector as the user sees it in cylinders, brought back to sectors; the arithmetic wraps. */
  function UnitFirst(first: u32, factor: u32): u32
    requires 1 <= factor
  {
    ToU32(FirstSector(Div(Add32(first, factor), factor), factor))
  }

  /** The bounds that add_partition uses for partition `i` when it adds partition `n`. */
  function First(s: Settings, t: Table, n: nat, i: nat): u32
    requires s.g.Sane() && |t.mbr| == 4 && i < t.Size()
  {
    if n < 4 && t.base != 0 && i == t.extIndex then t.base
    else if t.HoldsData(i) then FirstOf(s.g, t.At(i).chs, t.At(i).start)
    else NOWHERE
  }

  function Last(t: Table, n: nat, i: nat): u32
    requires |t.mbr| == 4 && i < t.Size()
  {
    if (n < 4 && t.base != 0 && i == t.extIndex) || t.HoldsData(i) then LastOf(t.At(i)) else 0
  }

  function LastOf(l: Logical): u32 {
    Sub32(Add32(l.start, l.count), 1)
  }

  function Shown(s: Settings, first: u32): u32
    requires s.Sane()
  {
    if s.unit then UnitFirst(first, FactorOf(s)) else first
  }

  /** The search of add_partition for partition `n`. */
  function SearchOf(s: Settings, t: Table, n: nat): Search
    requires s.Sane() && |t.mbr| == 4 && t.extIndex < 4
  {
    Search(
      seq(t.Size(), i requires 0 <= i < t.Size() => Shown(s, First(s, t, n, i))),
      seq(t.Size(), i requires 0 <= i < t.Size() => Last(t, n, i)),
      seq(t.Size(), i requires 0 <= i < t.Size() => t.Offset(i)),
      if n < 4 then s.sectorOffset else Add32(t.base, s.sectorOffset),
      if n < 4 then LastSector(s) else LastOf(t.At(t.extIndex)),
      s.sectorOffset,
      if n < 4 then 1 else s.sectorOffset,
      if n > 4 then 1 else 0,
      s.unit, FactorOf(s))
  }

  function LastSector(s: Settings): (r: u32)
    requires s.Sane()
    ensures r == s.Total() - 1
  {
    CylinderPositive(s.g);
    Monotone(s.g.Cylinder(), 1, s.g.cylinders);
    s.Total() - 1
  }

  function FactorOf(s: Settings): (r: u32)
    requires s.Sane()
    ensures r == s.Factor()
  {
    CylinderPositive(s.g);
    s.Factor()
  }

  lemma WordOf(x: int, turns: int)
    requires turns * U32 <= x < turns * U32 + U32
    ensures ToU32(x) == x - turns * U32
  {
  }

  /** The first sector of the cylinder that a sector lies in. */
  lemma UnitFirstIs(first: u32, factor: u32) returns (c: nat)
    requires 1 <= factor && first + factor < U32
    ensures UnitFirst(first, factor) == FirstSector(c, factor) <= first < FirstSector(c, factor) + factor
  {
    hide Div, Mod, ToU32, FirstSector;
    CroundBound(first, factor);
    c := Div(first + factor, factor);
    WordOf(FirstSector(c, factor), 0);
  }

  // ----- what the search needs, and what it grants

  /** The part of safety that the search relies on; it holds before and after the chain is opened. */
  predicate Searchable(s: Settings, t: Table) {
    && s.Sane() && |t.mbr| == 4 && t.extIndex < 4
    && (t.base != 0 ==> t.mbr[t.extIndex].kind == EXTENDED && t.mbr[t.extIndex].start == t.base)
    && forall i :: 0 <= i < t.Size() ==> t.Offset(i) < s.Total() && (t.Used(i) ==> Placed(s, t.At(i)))
  }

  lemma SearchableSane(s: Settings, t: Table)
    requires Searchable(s, t)
    ensures s.Sane() && |t.mbr| == 4 && t.extIndex < 4
  {
  }

  lemma SearchShape(s: Settings, t: Table, n: nat)
    requires s.Sane() && |t.mbr| == 4 && t.extIndex < 4
    ensures var q := SearchOf(s, t, n);
      |q.first| == |q.last| == |q.offsets| == t.Size() && q.unit == s.unit && q.extra == if n > 4 then 1 else 0
  {
  }

  function OpenTable(t: Table, changed: bool): Table
    requires t.links != []
  {
    t.(links := Opened(t.links, changed))
  }

  lemma SafeSearchable(s: Settings, t: Table)
    requires Safe(s, t) && s.Sane()
    ensures Searchable(s, t)
  {
    hide LogicalOf, Chain, Calculate;
    assert 0 < s.Total() by {
      var last := LastSector(s);
    }
  }

  lemma OpenSearchable(s: Settings, t: Table, changed: bool)
    requires Searchable(s, t) && t.links != []
    ensures Searchable(s, OpenTable(t, changed))
  {
    hide Calculate, Next, Data;
    var o := OpenTable(t, changed);
    BlankLink(changed);
    forall i | 0 <= i < o.Size() ensures o.Offset(i) < s.Total() && (o.Used(i) ==> Placed(s, o.At(i))) {
      assert i < t.Size() ==> o.At(i) == t.At(i) && o.Offset(i) == t.Offset(i);
      if i == t.Size() {
        EmptyFifth(o.links[i - 4]);
        assert t.Offset(0) == 0;
      }
    }
  }

  lemma SearchSound(s: Settings, t: Table, n: nat)
    requires Searchable(s, t) && (n < 4 || t.base != 0)
    ensures SearchOf(s, t, n).Sound(s.Total() - 1)
  {
    hide LogicalOf, Calculate, UnitFirst, Div, Mod;
    CylinderPositive(s.g);
    Monotone(s.g.sectors, 1, s.g.heads);
    var q := SearchOf(s, t, n);
    forall i | 0 <= i < t.Size() ensures q.last[i] < s.Total() && q.offsets[i] < s.Total() {
      LastBelow(s, t, n, i);
    }
    if t.base != 0 {
      assert t.Used(t.extIndex) && Placed(s, t.At(t.extIndex));
    }
  }

  lemma LastBelow(s: Settings, t: Table, n: nat, i: nat)
    requires Searchable(s, t) && i < t.Size()
    ensures Last(t, n, i) < s.Total()
    ensures t.HoldsData(i) || (n < 4 && t.base != 0 && i == t.extIndex) ==>
        Last(t, n, i) == t.At(i).start + t.At(i).count - 1
  {
    hide LogicalOf, Calculate;
    assert t.base != 0 ==> t.Used(t.extIndex);
    assert 0 < s.Total() by {
      var last := LastSector(s);
    }
  }

  lemma FirstBelow(s: Settings, t: Table, n: nat, i: nat)
    requires Searchable(s, t) && i < t.Size()
    requires t.HoldsData(i) || (n < 4 && t.base != 0 && i == t.extIndex)
    ensures Shown(s, First(s, t, n, i)) <= t.At(i).start
  {
    hide LogicalOf, Calculate, UnitFirst, FirstOf, Div, Mod;
    CylinderPositive(s.g);
    assert t.Used(i) && Placed(s, t.At(i));
    if s.unit {
      var c := UnitFirstIs(First(s, t, n, i), FactorOf(s));
    }
  }

  /** What the search grants shares no sector with a partition that it minds. */
  lemma GrantedApart(s: Settings, t: Table, n: nat, start: u32, stop: u32, i: nat, l: Logical)
    requires Searchable(s, t) && Granted(SearchOf(s, t, n), start, stop) && i < t.Size()
    requires t.HoldsData(i) || (n < 4 && t.base != 0 && i == t.extIndex)
    requires l.start == start && l.count == stop - start + 1
    ensures Apart(t.At(i), l)
  {
    hide LogicalOf, Calculate, First, Last, Shown;
    FirstBelow(s, t, n, i);
    LastBelow(s, t, n, i);
    var q := SearchOf(s, t, n);
    assert q.first[i] == Shown(s, First(s, t, n, i)) && q.last[i] == Last(t, n, i);
  }

  /** The search for the sectors of a new logical partition. */
  ghost function LogicalSearch(s: Settings, t: Table, changed: bool): Search
    requires s.Sane() && |t.mbr| == 4 && t.extIndex < 4 && t.links != []
  {
    SearchOf(s, OpenTable(t, changed), 3 + |Opened(t.links, changed)|)
  }

  // ----- adding

  /** add_partition, once the sectors of primary partition `n` are settled; an extended one starts a chain. */
  function PrimaryAdded(s: Settings, t: Table, n: nat, kind: u8, start: u32, stop: u32): Table
    requires s.g.Sane() && |t.mbr| == 4 && n < 4
  {
    var mbr := t.mbr[n := SetPartition(s.g, s.dos, start, stop, kind, 0)];
    if kind == EXTENDED then Table(mbr, [Record(start, NO_SLOTS, 0, 1, true)], n, start) else t.(mbr := mbr)
  }

  /** The same for a logical partition. */
  function LogicalAdded(s: Settings, t: Table, changed: bool, start: u32, stop: u32): Table
    requires s.g.Sane() && t.links != []
  {
    t.(links := Filled(Opened(t.links, changed), t.base, s.g, s.dos, start, stop, s.sectorOffset))
  }

  lemma NewPrimary(s: Settings, start: u32, stop: u32, kind: u8)
    requires s.g.Sane() && start <= stop < s.Total() < U32
    ensures var l := Primary(SetPartition(s.g, s.dos, start, stop, kind, 0));
      l.start == start && l.count == stop - start + 1 && l.kind == kind && Placed(s, l)
  {
    hide SetHsc, Calculate, Clamp, Settings.Total;
    WrittenAddress(s.g, s.dos, start);
  }

  lemma PrimaryAt(s: Settings, t: Table, n: nat, kind: u8, start: u32, stop: u32, i: nat)
    requires s.g.Sane() && Headed(t) && n < 4 && (kind == EXTENDED ==> t.base == 0)
    requires i < PrimaryAdded(s, t, n, kind, start, stop).Size()
    ensures var r := PrimaryAdded(s, t, n, kind, start, stop);
      if i == n then r.At(i) == Primary(SetPartition(s.g, s.dos, start, stop, kind, 0))
      else if i < t.Size() then r.At(i) == t.At(i) && r.Offset(i) == t.Offset(i)
      else i == 4 && !r.Used(i) && r.Offset(i) == start
  {
    hide SetPartition, Chain;
  }

  lemma PrimaryHeaded(s: Settings, t: Table, n: nat, kind: u8, start: u32, stop: u32)
    requires s.g.Sane() && Headed(t) && n < 4 && t.mbr[n].kind == 0 && (kind == EXTENDED ==> t.base == 0)
    requires start <= stop && 0 < start
    ensures Headed(PrimaryAdded(s, t, n, kind, start, stop))
  {
    hide SetHsc, Clamp;
  }

  /** Whatever the user answers, adding a primary partition keeps the table safe. */
  lemma AddPrimarySafe(s: Settings, t: Table, n: nat, kind: u8, start: u32, stop: u32)
    requires Safe(s, t) && s.Sane() && n < 4 && t.mbr[n].kind == 0 && kind != 0 && (kind == EXTENDED ==> t.base == 0)
    requires Granted(SearchOf(s, t, n), start, stop)
    ensures Safe(s, PrimaryAdded(s, t, n, kind, start, stop))
    ensures PrimaryAdded(s, t, n, kind, start, stop).At(n) == Primary(SetPartition(s.g, s.dos, start, stop, kind, 0))
  {
    hide Headed, PrimaryAdded, SetPartition, SearchOf, Granted, Calculate, LogicalOf, Apart, Contains, Placed;
    SafeHeaded(s, t);
    SafeSearchable(s, t);
    GrantedBounds(s, t, n, start, stop);
    var r := PrimaryAdded(s, t, n, kind, start, stop);
    var l := Primary(SetPartition(s.g, s.dos, start, stop, kind, 0));
    PrimaryHeaded(s, t, n, kind, start, stop);
    SafeShape(r);
    NewPrimary(s, start, stop, kind);
    PrimaryShape(s, t, n, kind, start, stop);
    forall i | 0 <= i < r.Size()
      ensures r.Used(i) ==> Placed(s, r.At(i)) && (i != n ==> Apart(r.At(i), l))
      ensures 4 <= i ==> r.At(i).kind != EXTENDED && 0 < r.Offset(i) < s.Total()
    {
      PrimaryAt(s, t, n, kind, start, stop, i);
      if i != n && i < t.Size() && t.Used(i) {
        UsedKind(s, t, i);
        GrantedApart(s, t, n, start, stop, i, l);
      }
    }
    forall i, j | 0 <= i < j < r.Size() && r.Used(i) && r.Used(j)
      ensures if i == r.extIndex && 4 <= j then Contains(r.At(i), r.At(j)) else Apart(r.At(i), r.At(j))
    {
      PrimaryAt(s, t, n, kind, start, stop, i);
      PrimaryAt(s, t, n, kind, start, stop, j);
      ApartSymmetric(r.At(i), r.At(j));
    }
    PrimaryAt(s, t, n, kind, start, stop, n);
  }

  lemma ApartSymmetric(l: Logical, m: Logical)
    ensures Apart(l, m) <==> Apart(m, l)
  {
  }

  lemma SafeShape(t: Table)
    requires Headed(t)
    ensures |t.mbr| == 4 && t.extIndex < 4
  {
  }

  lemma UsedKind(s: Settings, t: Table, i: nat)
    requires Safe(s, t) && i < t.Size() && t.Used(i)
    ensures t.HoldsData(i) || (t.base != 0 && i == t.extIndex)
  {
    hide LogicalOf, Chain;
  }

  lemma PrimaryShape(s: Settings, t: Table, n: nat, kind: u8, start: u32, stop: u32)
    requires s.g.Sane() && Headed(t) && n < 4 && t.mbr[n].kind == 0
    ensures var r := PrimaryAdded(s, t, n, kind, start, stop);
      if kind == EXTENDED then r.extIndex == n && r.Size() == 5
      else r.extIndex == t.extIndex && r.Size() == t.Size() && (4 < t.Size() ==> t.extIndex != n)
  {
    hide SetPartition, Chain;
  }

  lemma GrantedBounds(s: Settings, t: Table, n: nat, start: u32, stop: u32)
    requires Searchable(s, t) && (n < 4 || t.base != 0) && Granted(SearchOf(s, t, n), start, stop)
    ensures 0 < start <= stop < s.Total() < U32
    ensures 4 <= n ==> t.base + s.sectorOffset <= start && stop < t.At(t.extIndex).start + t.At(t.extIndex).count
    ensures 4 < n ==> t.base + s.sectorOffset < start
  {
    hide LogicalOf, Calculate, First, Last, Shown;
    SearchSound(s, t, n);
    CylinderPositive(s.g);
    assert t.base != 0 ==> t.Used(t.extIndex) && Placed(s, t.At(t.extIndex));
  }

  /** Where the record behind each logical partition is, after adding one. */
  lemma FilledOffset(s: Settings, t: Table, changed: bool, start: u32, stop: u32, j: nat)
    requires s.g.Sane() && t.links != [] && j < |Opened(t.links, changed)|
    ensures var r := LogicalAdded(s, t, changed, start, stop);
      && |r.links| == |Opened(t.links, changed)|
      && (j < |t.links| ==> r.links[j].offset == t.links[j].offset)
      && (j == |t.links| ==> r.links[j].offset == Sub32(start, s.sectorOffset))
  {
    hide SetPartition, Data, Next;
  }

  lemma LogicalAt(s: Settings, t: Table, changed: bool, start: u32, stop: u32, i: nat)
    requires s.g.Sane() && Headed(t) && t.base != 0 && t.links != [] && |t.links| < MOST_LINKS
    requires i < LogicalAdded(s, t, changed, start, stop).Size()
    ensures t.links != []
    ensures var r, n := LogicalAdded(s, t, changed, start, stop), 3 + |Opened(t.links, changed)|;
      && r.Size() == n + 1 && r.mbr == t.mbr && Headed(r)
      && (if i == n then r.At(i) == NewLogical(s.g, s.dos, start, stop)
          else i < t.Size() && r.At(i) == t.At(i) == OpenTable(t, changed).At(i))
  {
    hide Filled, Chain, LogicalOf, NewLogical, Data;
    AddKeepsChain(t.links, t.base, s.g, s.dos, start, stop, s.sectorOffset, changed);
    var r := LogicalAdded(s, t, changed, start, stop);
    assert |r.links| == |Logicals(r.links)|;
    assert 4 <= i ==> r.At(i) == Logicals(r.links)[i - 4];
    assert 4 <= i < t.Size() ==> t.At(i) == Logicals(t.links)[i - 4];
    EmptyFifth(t.links[0]);
  }

  lemma NewLogicalPlaced(s: Settings, start: u32, stop: u32)
    requires s.g.Sane() && start <= stop < s.Total() < U32
    ensures var l := NewLogical(s.g, s.dos, start, stop);
      l.start == start && l.count == stop - start + 1 && l.kind == LINUX_NATIVE && Placed(s, l)
  {
    hide SetHsc, Calculate, Clamp, Settings.Total;
    WrittenAddress(s.g, s.dos, start);
  }

  /** Whatever the user answers, adding a logical partition keeps the table safe. */
  lemma AddLogicalSafe(s: Settings, t: Table, changed: bool, start: u32, stop: u32)
    requires Safe(s, t) && s.Sane() && t.base != 0 && t.links != [] && |t.links| < MOST_LINKS
    requires Granted(SearchOf(s, OpenTable(t, changed), 3 + |Opened(t.links, changed)|), start, stop)
    ensures Safe(s, LogicalAdded(s, t, changed, start, stop))
    ensures LogicalAdded(s, t, changed, start, stop).At(3 + |Opened(t.links, changed)|) ==
      NewLogical(s.g, s.dos, start, stop)
  {
    hide Headed, LogicalAdded, OpenTable, SearchOf, Granted, Calculate, LogicalOf, Apart, Contains, Placed, Filled,
        Opened, NewLogical;
    SafeHeaded(s, t);
    SafeSearchable(s, t);
    OpenSearchable(s, t, changed);
    var r, o, n := LogicalAdded(s, t, changed, start, stop), OpenTable(t, changed), 3 + |Opened(t.links, changed)|;
    OpenShape(t, changed);
    GrantedBounds(s, o, n, start, stop);
    NewLogicalPlaced(s, start, stop);
    var l := NewLogical(s.g, s.dos, start, stop);
    LogicalShape(s, t, changed, start, stop);
    forall i | 0 <= i < r.Size()
      ensures r.Used(i) ==> Placed(s, r.At(i)) && (i != n && i != t.extIndex ==> Apart(r.At(i), l))
      ensures 4 <= i ==> r.At(i).kind != EXTENDED && 0 < r.Offset(i) < s.Total()
    {
      LogicalAt(s, t, changed, start, stop, i);
      if i != n && i != t.extIndex && t.Used(i) {
        UsedKind(s, t, i);
        GrantedApart(s, o, n, start, stop, i, l);
      }
      if 4 <= i {
        FilledOffset(s, t, changed, start, stop, i - 4);
        assert i < t.Size() ==> 0 < t.Offset(i) < s.Total();
      }
    }
    forall i, j | 0 <= i < j < r.Size() && r.Used(i) && r.Used(j)
      ensures if i == r.extIndex && 4 <= j then Contains(r.At(i), r.At(j)) else Apart(r.At(i), r.At(j))
    {
      LogicalAt(s, t, changed, start, stop, i);
      LogicalAt(s, t, changed, start, stop, j);
      if j == n && i == t.extIndex {
        InContainer(t.At(i), l, s.sectorOffset);
      }
    }
    LogicalAt(s, t, changed, start, stop, n);
  }

  lemma InContainer(outer: Logical, l: Logical, sectorOffset: nat)
    requires 0 < sectorOffset && outer.start + sectorOffset <= l.start && l.start + l.count <= outer.start + outer.count
    ensures Contains(outer, l)
  {
  }

  lemma OpenShape(t: Table, changed: bool)
    requires t.links != [] && Headed(t)
    ensures var o, n := OpenTable(t, changed), 3 + |Opened(t.links, changed)|;
      && 4 <= n && o.Size() == n + 1 && o.base == t.base && o.extIndex == t.extIndex && o.mbr == t.mbr
      && t.base == t.At(t.extIndex).start
      && forall i :: 0 <= i < t.Size() ==> o.At(i) == t.At(i)
  {
    hide LogicalOf, Chain;
  }

  lemma LogicalShape(s: Settings, t: Table, changed: bool, start: u32, stop: u32)
    requires s.g.Sane() && Headed(t) && t.base != 0 && t.links != [] && |t.links| < MOST_LINKS
    ensures t.links != []
    ensures var r := LogicalAdded(s, t, changed, start, stop);
      Headed(r) && |r.mbr| == 4 && r.Size() == 4 + |Opened(t.links, changed)| && r.extIndex == t.extIndex
  {
    hide Filled, Chain, LogicalOf, NewLogical, Data;
    LogicalAt(s, t, changed, start, stop, 0);
  }

  // ----- nothing free is refused

  /** Partition `i` is bounded in the search for partition `n`. */
  predicate Bounds(t: Table, n: nat, i: nat)
    requires |t.mbr| == 4 && i < t.Size()
  {
    t.HoldsData(i) || (n < 4 && t.base != 0 && i == t.extIndex)
  }

  /** The address of partition `i` is exact, as far as it matters. */
  predicate Exact(s: Settings, t: Table, i: nat)
    requires s.g.Sane() && |t.mbr| == 4 && i < t.Size()
  {
    t.HoldsData(i) ==> FirstOf(s.g, t.At(i).chs, t.At(i).start) == t.At(i).start
  }

  /** As far as partition `i` is concerned, sectors from..to are free and nothing begins behind the first of them. */
  predicate Leaves(t: Table, n: nat, i: nat, from: int, to: int)
    requires |t.mbr| == 4 && i < t.Size()
  {
    && (Bounds(t, n, i) ==> t.At(i).start + t.At(i).count <= from || to < t.At(i).start)
    && (t.Offset(i) < from || to < t.Offset(i))
  }

  /** The search for partition `n` comes to rest at sector `x` or before, as far as partition `i` is concerned. */
  predicate Rests(s: Settings, t: Table, n: nat, i: nat, x: int)
    requires s.Sane() && |t.mbr| == 4 && i < t.Size()
  {
    && (Bounds(t, n, i) ==>
          t.At(i).start + t.At(i).count + (if n < 4 then 0 else s.sectorOffset - 1) <= x
          || x < Shown(s, t.At(i).start))
    && (t.Offset(i) + s.sectorOffset <= x || x < t.Offset(i))
  }

  lemma SoundLimit(q: Search, top: nat)
    requires q.Sound(top)
    ensures q.limit <= top
  {
  }

  lemma SearchLimit(s: Settings, t: Table, n: nat)
    requires Searchable(s, t) && (n < 4 || t.base != 0)
    ensures SearchOf(s, t, n).limit < s.Total()
  {
    assert 0 <= s.Total() - 1 by {
      var last := LastSector(s);
    }
    hide *;
    SearchableSane(s, t);
    SearchSound(s, t, n);
    SoundLimit(SearchOf(s, t, n), s.Total() - 1);
  }

  lemma FreeAt(s: Settings, t: Table, n: nat, i: nat, rest: u32, from: u32, to: u32)
    requires Searchable(s, t) && !s.unit && i < t.Size() && from <= to < s.Total()
    requires Exact(s, t, i) && Leaves(t, n, i, from, to) && Rests(s, t, n, i, rest)
    ensures var q := SearchOf(s, t, n);
      && !q.Blocks(i, from) && !q.Begins(i, from, to) && !q.Blocks(i, rest)
      && !(q.offsets[i] <= rest < q.offsets[i] + q.hop) && !(q.first[i] <= rest < q.last[i] + q.step)
  {
    hide LogicalOf, Calculate, FirstOf;
    CylinderPositive(s.g);
    LastBelow(s, t, n, i);
  }

  /** In sector units, sectors that every partition leaves are free if the search rests somewhere before them. */
  lemma FreeGap(s: Settings, t: Table, n: nat, rest: u32, from: u32, to: u32)
    requires Searchable(s, t) && !s.unit && (n < 4 || t.base != 0)
    requires var q := SearchOf(s, t, n);
      q.lowest <= rest && rest + q.extra <= from && q.lowest + q.extra <= from <= to <= q.limit
    requires forall i :: 0 <= i < t.Size() ==> Exact(s, t, i) && Leaves(t, n, i, from, to) && Rests(s, t, n, i, rest)
    ensures SearchOf(s, t, n).Free(from, to)
  {
    hide *;
    SearchableSane(s, t);
    SearchLimit(s, t, n);
    SearchShape(s, t, n);
    var q := SearchOf(s, t, n);
    forall i | 0 <= i < t.Size()
      ensures !q.Blocks(i, from) && !q.Begins(i, from, to) && !q.Blocks(i, rest)
      ensures !(q.offsets[i] <= rest < q.offsets[i] + q.hop) && !(q.first[i] <= rest < q.last[i] + q.step)
    {
      FreeAt(s, t, n, i, rest, from, to);
    }
    FreeEverywhere(q, rest, from, to);
  }

  /**
   What the search goes by, without any wrap-around: the sectors of the disk, or of the extended
   partition behind its first link, and for every partition its link sector and its sectors.
   */
  lemma SearchIs(s: Settings, t: Table, n: nat)
    requires Searchable(s, t) && (n < 4 || t.base != 0)
    ensures var q := SearchOf(s, t, n);
      && q.lowest == (if n < 4 then s.sectorOffset else t.base + s.sectorOffset)
      && q.limit == (if n < 4 then s.Total() - 1 else t.base + t.At(t.extIndex).count - 1)
      && q.hop == s.sectorOffset && q.step == (if n < 4 then 1 else s.sectorOffset)
      && q.extra == (if n > 4 then 1 else 0) && q.unit == s.unit && q.factor == s.Factor()
      && |q.first| == |q.last| == |q.offsets| == t.Size()
    ensures forall i :: 0 <= i < t.Size() ==> SearchesPast(s, t, n, SearchOf(s, t, n), i)
  {
    SearchableSane(s, t);
    CylinderPositive(s.g);
    ContainerPlaced(s, t);
    hide Searchable, LogicalOf, Calculate, First, Last, Shown, FirstOf;
    forall i | 0 <= i < t.Size() ensures SearchesPast(s, t, n, SearchOf(s, t, n), i) {
      PartSearched(s, t, n, i);
    }
  }

  predicate SearchesPast(s: Settings, t: Table, n: nat, q: Search, i: nat)
    requires s.Sane() && |t.mbr| == 4 && i < t.Size() && |q.first| == |q.last| == |q.offsets| == t.Size()
  {
    && q.offsets[i] == (if i < 4 then 0 else t.links[i - 4].offset)
    && (Bounds(t, n, i) ==> q.last[i] == t.At(i).start + t.At(i).count - 1)
    && (Bounds(t, n, i) && Exact(s, t, i) && !s.unit ==> q.first[i] == t.At(i).start)
    && (!Bounds(t, n, i) && !s.unit ==> q.last[i] < q.first[i])
  }

  lemma PartSearched(s: Settings, t: Table, n: nat, i: nat)
    requires Searchable(s, t) && (n < 4 || t.base != 0) && i < t.Size()
    ensures var q := SearchOf(s, t, n);
      |q.first| == |q.last| == |q.offsets| == t.Size() && SearchesPast(s, t, n, q, i)
  {
    LastBelow(s, t, n, i);
    hide Calculate, FirstOf, LogicalOf;
  }

  lemma ContainerPlaced(s: Settings, t: Table)
    requires Searchable(s, t)
    ensures s.Sane() && |t.mbr| == 4 && t.extIndex < 4
    ensures t.base != 0 ==> t.At(t.extIndex).start == t.base && 1 <= t.At(t.extIndex).count
    ensures t.base != 0 ==> t.base + t.At(t.extIndex).count <= s.Total()
  {
    hide Calculate;
    assert t.base != 0 ==> t.Used(t.extIndex) && Placed(s, t.At(t.extIndex));
  }

  lemma FreeEverywhere(q: Search, rest: u32, from: u32, to: u32)
    requires |q.first| == |q.last| == |q.offsets| && !q.unit
    requires q.lowest <= rest && rest + q.extra <= from && q.lowest + q.extra <= from <= to <= q.limit
    requires forall i :: 0 <= i < |q.first| ==>
      && !q.Blocks(i, from) && !q.Begins(i, from, to) && !q.Blocks(i, rest)
      && !(q.offsets[i] <= rest < q.offsets[i] + q.hop) && !(q.first[i] <= rest < q.last[i] + q.step)
    ensures q.Free(from, to)
  {
    hide Search.Blocks, Search.Begins;
    assert q.Reachable(rest);
  }

  /**
   In sector units every stretch that all partitions leave is granted to a primary
   partition when it is asked for, if the addresses of the records are exact.
   */
  lemma FreeStretch(s: Settings, t: Table, n: nat, from: u32, to: u32)
    requires Safe(s, t) && s.Sane() && !s.unit && n < 4 && s.sectorOffset <= from <= to < s.Total()
    requires forall i :: 0 <= i < t.Size() ==> Exact(s, t, i) && Leaves(t, n, i, from, to) && Rests(s, t, n, i, from)
    ensures SearchOf(s, t, n).Free(from, to)
  {
    hide Safe, Leaves, Rests, Exact;
    SafeSearchable(s, t);
    FreeGap(s, t, n, from, from, to);
  }

  // ----- the same in cylinders

  /** What `first` becomes in cylinder units lies in the same cylinder, at its first sector. */
  lemma UnitFirstIn(first: u32, factor: u32, c: u32)
    requires 1 <= factor && first + factor < U32 && 1 <= c
    ensures UnitFirst(first, factor) <= first
    ensures FirstSector(c, factor) <= first ==> FirstSector(c, factor) <= UnitFirst(first, factor)
  {
    hide Div, Mod, ToU32, FirstSector;
    CroundBound(first, factor);
    var r := Div(first + factor, factor);
    WordOf(FirstSector(r, factor), 0);
    if r < c {
      FirstSectorMonotone(r + 1, c, factor);
      FirstSectorNext(r, factor);
    } else {
      FirstSectorMonotone(c, r, factor);
    }
  }

  /** A partition that is not there begins in the last cylinder of all. */
  lemma UnitNowhere(factor: u32)
    requires 1 <= factor
    ensures UnitFirst(NOWHERE, factor) == U32 - factor
  {
    hide Div, Mod, ToU32;
    assert Add32(NOWHERE, factor) == factor - 1;
    Quotient(factor - 1, factor, 0, factor - 1);
    WordOf(0 - factor, -1);
  }

  lemma CylindersAt(s: Settings, t: Table, n: nat, i: nat, from: u32, to: u32, d: u32)
    requires Searchable(s, t) && s.unit && i < t.Size() && from <= to < s.Total()
    requires to + 1 == FirstSector(d + 1, s.Factor()) && d + 1 < U32
    requires Exact(s, t, i) && Leaves(t, n, i, from, to)
    ensures var q := SearchOf(s, t, n); !q.Blocks(i, from) && !q.Begins(i, from, to)
  {
    hide LogicalOf, Calculate, FirstOf, UnitFirst, FirstSector, Settings.Factor;
    LastBelow(s, t, n, i);
    UnitRoom(s);
    var q := SearchOf(s, t, n);
    if Bounds(t, n, i) {
      BoundPlaced(s, t, n, i);
      UnitFirstIn(t.At(i).start, FactorOf(s), d + 1);
    } else {
      UnitNowhere(FactorOf(s));
    }
  }

  lemma UnitRoom(s: Settings)
    requires s.Sane()
    ensures s.Factor() <= s.g.FullBits() && s.Total() + s.Factor() <= U32
  {
    CylinderPositive(s.g);
    Monotone(s.g.Cylinder(), 1, 1024);
  }

  lemma BoundPlaced(s: Settings, t: Table, n: nat, i: nat)
    requires Searchable(s, t) && i < t.Size() && Bounds(t, n, i) && Exact(s, t, i)
    ensures First(s, t, n, i) == t.At(i).start && t.At(i).start + t.At(i).count <= s.Total() && 1 <= t.At(i).count
  {
    hide Calculate, FirstOf, LogicalOf;
    assert t.Used(i) && Placed(s, t.At(i));
  }

  lemma CylindersRest(s: Settings, t: Table, n: nat, i: nat, rest: u32)
    requires Searchable(s, t) && s.unit && i < t.Size() && rest < s.Total()
    requires Exact(s, t, i) && Rests(s, t, n, i, rest)
    ensures var q := SearchOf(s, t, n);
      && !q.Blocks(i, rest)
      && !(q.offsets[i] <= rest < q.offsets[i] + q.hop) && !(q.first[i] <= rest < q.last[i] + q.step)
  {
    hide LogicalOf, Calculate, FirstOf, UnitFirst, FirstSector, Settings.Factor;
    LastBelow(s, t, n, i);
    UnitRoom(s);
    CylinderPositive(s.g);
    if Bounds(t, n, i) {
      BoundPlaced(s, t, n, i);
    } else {
      UnitNowhere(FactorOf(s));
    }
  }

  /** Partition `i` stays clear of cylinders `c` to `d`, and of where the search begins if that is among them;
      otherwise it lets the search rest at sector `rest` before them. */
  predicate Clears(s: Settings, t: Table, n: nat, i: nat, rest: u32, c: u32, d: u32)
    requires s.Sane() && |t.mbr| == 4 && t.extIndex < 4 && i < t.Size()
  {
    var q := SearchOf(s, t, n);
    && Exact(s, t, i)
    && if FirstSector(c, q.factor) < q.lowest + q.extra then Leaves(t, n, i, q.lowest, q.CylinderEnd(d))
       else Leaves(t, n, i, FirstSector(c, q.factor), q.CylinderEnd(d)) && Rests(s, t, n, i, rest)
  }

  lemma LeavesLess(t: Table, n: nat, i: nat, begin: int, from: int, to: int)
    requires |t.mbr| == 4 && i < t.Size() && Leaves(t, n, i, begin, to) && begin <= from
    ensures Leaves(t, n, i, from, to)
  {
    hide LogicalOf;
  }

  lemma ClearAt(s: Settings, t: Table, n: nat, i: nat, rest: u32, c: u32, d: u32)
    requires Searchable(s, t) && s.unit && (n < 4 || t.base != 0) && 1 <= c <= d && i < t.Size()
    requires var q := SearchOf(s, t, n);
      && q.CylinderStart(c) <= q.CylinderEnd(c) && q.CylinderEnd(d) <= q.limit < s.Total()
      && (q.lowest + q.extra <= FirstSector(c, q.factor) ==> rest <= q.CylinderStart(c) - q.extra)
    requires Clears(s, t, n, i, rest, c, d)
    ensures var q := SearchOf(s, t, n);
      && !q.Blocks(i, q.CylinderStart(c)) && !q.Begins(i, q.CylinderStart(c), q.CylinderEnd(d))
      && (if FirstSector(c, q.factor) < q.lowest + q.extra then !q.Blocks(i, q.lowest)
          else !q.Blocks(i, rest) && !(q.offsets[i] <= rest < q.offsets[i] + q.hop)
               && !(q.first[i] <= rest < q.last[i] + q.step))
  {
    SearchFactor(s, t, n);
    hide SearchOf, LogicalOf, FirstSector, Search.Blocks, Search.Begins, Searchable, Exact, Leaves, Rests;
    var q := SearchOf(s, t, n);
    CylindersAscend(q, c, d);
    FirstSectorNext(d, q.factor);
    UnitTop(s, d);
    var from: u32, to: u32 := q.CylinderStart(c), q.CylinderEnd(d);
    if FirstSector(c, q.factor) < q.lowest + q.extra {
      LeavesLess(t, n, i, q.lowest, from, to);
      CylindersAt(s, t, n, i, from, to, d);
      CylindersAt(s, t, n, i, q.lowest, to, d);
    } else {
      CylindersAt(s, t, n, i, from, to, d);
      CylindersRest(s, t, n, i, rest);
    }
  }

  lemma SearchFactor(s: Settings, t: Table, n: nat)
    requires s.Sane() && |t.mbr| == 4 && t.extIndex < 4
    ensures var q := SearchOf(s, t, n);
      |q.first| == |q.last| == |q.offsets| == t.Size() && q.unit == s.unit && q.factor == s.Factor()
  {
  }

  /** A cylinder that ends on the disk has a number well within 32 bits. */
  lemma UnitTop(s: Settings, d: u32)
    requires s.Sane() && 1 <= d
    ensures FirstSector(d, s.Factor()) + s.Factor() <= s.Total() ==> d + 1 < U32
  {
    hide Settings.Factor, Settings.Total, FirstSector;
    UnitRoom(s);
    FirstSectorAtLeast(d, s.Factor());
  }

  lemma FirstSectorAtLeast(d: nat, factor: nat)
    requires 1 <= factor && 1 <= d
    ensures d - 1 <= FirstSector(d, factor)
  {
    Monotone(d - 1, 1, factor);
  }

  /**
   In cylinder units, whole cylinders that every partition stays clear of are granted when
   they are asked for, if the search rests somewhere before them or begins among them.
   */
  lemma FreeWhole(s: Settings, t: Table, n: nat, rest: u32, c: u32, d: u32)
    requires Searchable(s, t) && s.unit && (n < 4 || t.base != 0) && 1 <= c <= d
    requires var q := SearchOf(s, t, n);
      && q.CylinderStart(c) <= q.CylinderEnd(c) && q.CylinderEnd(d) <= q.limit
      && (q.lowest + q.extra <= FirstSector(c, q.factor) ==> q.lowest <= rest <= q.CylinderStart(c) - q.extra)
    requires forall i :: 0 <= i < t.Size() ==> Clears(s, t, n, i, rest, c, d)
    ensures SearchOf(s, t, n).FreeCylinders(c, d)
  {
    SearchFactor(s, t, n);
    SearchSound(s, t, n);
    SoundLimit(SearchOf(s, t, n), s.Total() - 1);
    hide SearchOf, Clears, FirstSector, Search.Blocks, Search.Begins, Search.Sound, Searchable;
    var q := SearchOf(s, t, n);
    forall i | 0 <= i < t.Size()
      ensures !q.Blocks(i, q.CylinderStart(c)) && !q.Begins(i, q.CylinderStart(c), q.CylinderEnd(d))
      ensures if FirstSector(c, q.factor) < q.lowest + q.extra then !q.Blocks(i, q.lowest)
        else !q.Blocks(i, rest) && !(q.offsets[i] <= rest < q.offsets[i] + q.hop)
             && !(q.first[i] <= rest < q.last[i] + q.step)
    {
      ClearAt(s, t, n, i, rest, c, d);
    }
    assert q.lowest + q.extra <= FirstSector(c, q.factor) ==> q.Reachable(rest);
  }
}
