/** What asking for cylinders gives on an empty disk (add_partition in fdisk.c, in its first units). */
module Cylinders {
  import opened Words
  import opened Chs
  import opened ExtendedChain
  import opened GapModel
  import opened MbrModel
  import opened MbrEditor

  const EMPTY := Table(NO_SLOTS, [], 0, 0)

  /** The first sector of cylinder `c` that a partition can have. */
  function FirstUsable(g: Geometry, c: int): int {
    if (c - 1) * g.Cylinder() < g.sectors then g.sectors else (c - 1) * g.Cylinder()
  }

  function Starting(g: Geometry): Settings
    requires g.Sane()
  {
    Settings(g, true, g.sectors, true)
  }

  lemma EmptySearch(g: Geometry, n: nat)
    requires g.Sane() && Starting(g).Sane() && n < 4
    ensures var q := SearchOf(Starting(g), EMPTY, n);
      && |q.first| == |q.last| == |q.offsets| == 4 && q.unit && q.factor == g.Cylinder() && q.extra == 0
      && q.lowest == g.sectors && q.limit == g.cylinders * g.Cylinder() - 1
      && q.hop == g.sectors && q.step == 1
      && forall i :: 0 <= i < 4 ==> q.offsets[i] == 0 && q.first[i] == U32 - g.Cylinder() && q.last[i] == 0
  {
    hide UnitFirst;
    UnitNowhere(FactorOf(Starting(g)));
  }

  /** Cylinder numbers up to the last one lead to sectors of the disk. */
  lemma OnDisk(g: Geometry, c: nat, d: nat)
    requires g.Sane() && Starting(g).Sane() && 1 <= c <= d <= g.cylinders
    ensures 0 <= FirstSector(c, g.Cylinder()) && FirstSector(c, g.Cylinder()) + g.Cylinder() <= d * g.Cylinder()
    ensures FirstSector(d, g.Cylinder()) + g.Cylinder() == d * g.Cylinder() <= g.cylinders * g.Cylinder() < U32
    ensures d < g.cylinders ==> d * g.Cylinder() < g.cylinders * g.Cylinder()
    ensures d < U32
  {
    hide Geometry.Cylinder;
    CylinderPositive(g);
    FirstSectorMonotone(1, c, g.Cylinder());
    FirstSectorNext(d, g.Cylinder());
    FirstSectorMonotone(c, d, g.Cylinder());
    Monotone(g.Cylinder(), d, g.cylinders);
    if d < g.cylinders {
      Monotone(g.Cylinder(), d + 1, g.cylinders);
    }
    FirstSectorAtLeast(d + 1, g.Cylinder());
  }

  /** All cylinders of an empty disk are free. */
  lemma EmptyFree(g: Geometry, n: nat, c: nat, d: nat)
    requires g.Sane() && Starting(g).Sane() && n < 4 && 1 <= c <= d <= g.cylinders && g.sectors < c * g.Cylinder()
    ensures c < U32 && d < U32
    ensures var q := SearchOf(Starting(g), EMPTY, n);
      && |q.first| == |q.last| == |q.offsets| && q.FreeCylinders(c, d) && q.CylinderStart(c) == FirstUsable(g, c)
      && q.CylinderStop(c, d) == if c < d || d < g.cylinders then d * g.Cylinder() - 1 else FirstUsable(g, c)
  {
    EmptySearch(g, n);
    OnDisk(g, c, d);
    OnDisk(g, c, c);
    hide SearchOf, Geometry.Cylinder;
    var q := SearchOf(Starting(g), EMPTY, n);
    var s := q.CylinderStart(c);
    assert g.sectors <= s <= q.limit && q.Unblocked(s);
    assert q.Reachable(s);
    assert d < g.cylinders <==> q.Beyond(s, q.CylinderEnd(d) + 1);
  }

  /**
   On an empty disk a primary partition that is asked to take cylinders `c` to `d` takes
   them to the last sector, except that the last cylinder of the disk alone gives a
   partition of one sector.
   */
  method AddOnEmptyDisk(g: Geometry, n: nat, c: u32, d: u32) returns (e: Editor, outcome: Outcome)
    requires Settings(g, true, 1, true).Sane()
    requires n < 4 && 1 <= c <= d <= g.cylinders && g.sectors < c * g.Cylinder()
    ensures e.Valid() && e.Model().At(n).start == FirstUsable(g, c) && e.Model().At(n).kind == LINUX_NATIVE
    ensures e.Model().At(n).count == if c < d || d < g.cylinders then d * g.Cylinder() - FirstUsable(g, c) else 1
  {
    hide SearchOf, Granted, Search.FreeCylinders, Search.CylinderStart, Search.CylinderStop, Safe, Headed, PrimaryAdded,
        SetPartition, FirstUsable, Geometry.Cylinder, SetHsc, Settings.Total;
    e := new Editor(g);
    ghost var s := e.Using();
    EmptyFree(g, n, c, d);
    outcome := e.AddPrimary(n, LINUX_NATIVE, [c, d]);
    AddPrimarySafe(s, EMPTY, n, LINUX_NATIVE, outcome.gap.start, outcome.gap.stop);
    SafeSearchable(s, EMPTY);
    GrantedBounds(s, EMPTY, n, outcome.gap.start, outcome.gap.stop);
    MbrModel.NewPrimary(s, outcome.gap.start, outcome.gap.stop, LINUX_NATIVE);
  }
}
