/**
 What the editing commands of partition_map.c and pdisk.c answer, said of the
 blocks of the disk alone: which requests are carried out, and what is protected.
 */
module Requests {
  import opened Words
  import opened Seqs
  import opened MapModel
  import opened Geometry
  import opened Views
  import opened Allocation
  import opened MapTheorems
  import opened MapResize
  import opened Sessions

  // ----- creating

  /** One for each part of the free entry `d` that is left over below or above the blocks b..b+len. */
  function Rests(d: Dpme, b: int, len: int): nat {
    (if d.start < b then 1 else 0) + (if b + len < End(d) then 1 else 0)
  }

  /** Entry `k` is free and holds the blocks b..b+len, and a map of `capacity` entries has room for what is
      left of it. */
  predicate FitsInto(v: seq<Dpme>, k: int, b: int, len: int, capacity: int)
    requires 0 <= k < |v|
  {
    v[k].ptype == FreeType && v[k].start <= b && b + len <= End(v[k]) && |v| + Rests(v[k], b, len) <= capacity
  }

  ghost predicate Fitting(v: seq<Dpme>, b: int, len: int, capacity: int) {
    exists k :: 0 <= k < |v| && FitsInto(v, k, b, len, capacity)
  }

  /** How many entries a map can hold. */
  function Room<Id>(s: State<Id>): int {
    if s.maximum < 0 then s.media else s.maximum
  }

  /** Only one entry of a sound map can hold a block. */
  lemma OneHolder(v: seq<Dpme>, b: u32, len: u32, k: nat)
    requires Sound(v) && k < |v| && 0 < len && b + len < U32 && v[k].start <= b && b + len <= End(v[k])
    ensures Holder(v, b, len) == k
  {
    forall j | 0 <= j < k ensures !Holds(v[j], b, len) {
      assert End(v[j]) <= v[k].start;
    }
    HolderUnique(v, b, len, k);
  }

  /** A create request is carried out exactly if it fits; otherwise nothing changes. */
  lemma CreateIff<Id>(s: State<Id>, name: string, ptype: PartType, b: u32, len: u32, ids: seq<Id>)
    requires WF(s) && Sound(BaseView(s)) && 0 < len && b + len < U32
    requires FreshIds(s, ids, Allocates(s, b, len)) && ptype != FreeType
    ensures var v, r := BaseView(s), Create(s, name, ptype, b, len, ids);
      var fits := Fitting(v, b, len, Room(s));
      && (Accepts(s, b, len) <==> fits)
      && if fits then multiset(Used(BaseView(r))) == multiset(Used(v)) + multiset{CreateData(name, ptype, b, len)}
         else r == s
  {
    AcceptsIff(s, b, len);
    hide Fitting, Accepts, Create, Used, Sound, WF;
    if Accepts(s, b, len) {
      CreateKeeps(s, name, ptype, b, len, ids);
    } else {
      CreateRefused(s, name, ptype, b, len, ids);
    }
  }

  lemma AcceptsIff<Id>(s: State<Id>, b: u32, len: u32)
    requires WF(s) && Sound(BaseView(s)) && 0 < len && b + len < U32
    ensures Accepts(s, b, len) <==> Fitting(BaseView(s), b, len, Room(s))
  {
    SameSize(s);
    hide Coherent, NoDup, Elements, View, WF, Sound, Fitting;
    FittingIff(BaseView(s), b, len, Room(s));
  }

  /** The first entry that holds the request is the only one to ask. */
  lemma FittingIff(v: seq<Dpme>, b: u32, len: u32, capacity: int)
    requires Sound(v) && 0 < len && b + len < U32
    ensures var k := Holder(v, b, len);
      Fitting(v, b, len, capacity) <==>
        k < |v| && v[k].ptype == FreeType && |v| + Cost(ActionFor(v[k], b, len)) <= capacity
  {
    hide Sound, FitsInto;
    var h := Holder(v, b, len);
    if h < |v| {
      HolderEnds(v, b, len);
      FitsIff(v, h, b, len, capacity);
    }
    if Fitting(v, b, len, capacity) {
      var k :| 0 <= k < |v| && FitsInto(v, k, b, len, capacity);
      FitsHere(v, k, b, len, capacity);
    }
  }

  lemma FitsIff(v: seq<Dpme>, k: nat, b: u32, len: u32, capacity: int)
    requires k < |v| && v[k].start <= b && b + len <= End(v[k]) < U32 && 0 < len
    ensures FitsInto(v, k, b, len, capacity) <==>
      v[k].ptype == FreeType && |v| + Cost(ActionFor(v[k], b, len)) <= capacity
  {
  }

  lemma FitsHere(v: seq<Dpme>, k: nat, b: u32, len: u32, capacity: int)
    requires Sound(v) && k < |v| && 0 < len && b + len < U32 && FitsInto(v, k, b, len, capacity)
    ensures Holder(v, b, len) == k
  {
    OneHolder(v, b, len, k);
  }

  lemma HolderEnds(v: seq<Dpme>, b: u32, len: u32)
    requires Sound(v) && b + len < U32 && Holder(v, b, len) < |v|
    ensures var d := v[Holder(v, b, len)]; d.start <= b && b + len <= End(d) < U32
  {
  }

  // ----- deleting

  /** All blocks of the driver lie in the entry. */
  predicate Inside(drv: Driver, d: Dpme) {
    d.start <= drv.block && drv.block + drv.size <= End(d)
  }

  /** The driver ends within 32 bits. */
  predicate Plain(drv: Driver) {
    drv.block + drv.size < U32
  }

  ghost predicate HoldsDriver(drivers: seq<Driver>, d: Dpme) {
    exists i :: 0 <= i < |drivers| && Inside(drivers[i], d)
  }

  lemma DriversInside(drivers: seq<Driver>, d: Dpme)
    requires End(d) < U32 && forall i :: 0 <= i < |drivers| ==> Plain(drivers[i])
    ensures ContainsDriver(drivers, d) <==> HoldsDriver(drivers, d)
  {
    if i :| 0 <= i < |drivers| && Inside(drivers[i], d) {
      assert Plain(drivers[i]);
    }
    if ContainsDriver(drivers, d) {
      var i :| 0 <= i < |drivers| &&
        d.start <= drivers[i].block && Add32(drivers[i].block, drivers[i].size) <= Add32(d.start, d.blocks);
      assert Plain(drivers[i]) && Inside(drivers[i], d);
    }
  }

  /** The blocks of `d` lie in one free entry. */
  ghost predicate InFreeSpace(w: seq<Dpme>, d: Dpme) {
    exists j :: 0 <= j < |w| && w[j].ptype == FreeType && w[j].start <= d.start && End(d) <= End(w[j])
  }

  /**
   A delete changes nothing if the entry is the map's own or holds a driver; otherwise the
   entry becomes free, alone or with its free neighbours, and nothing else goes out of use.
   */
  lemma DeleteIff<Id>(s: State<Id>, k: nat)
    requires WF(s) && Sound(BaseView(s)) && k < |s.base|
    requires forall i :: 0 <= i < |s.drivers| ==> Plain(s.drivers[i])
    ensures s.base[k] in s.data
    ensures var v, r := BaseView(s), Delete(s, s.base[k]);
      if v[k].ptype == MapType || HoldsDriver(s.drivers, v[k]) then r == s
      else Used(BaseView(r)) == Used(v[..k]) + Used(v[k + 1..]) && InFreeSpace(BaseView(r), v[k])
  {
    DeletableIff(s, k);
    hide *;
    if Deletable(s, s.base[k]) {
      DeleteUses(s, k);
      DeleteFrees(s, k);
    } else {
      DeleteRefused(s, s.base[k]);
    }
  }

  lemma DeleteUses<Id>(s: State<Id>, k: nat)
    requires WF(s) && Sound(BaseView(s)) && k < |s.base| && s.base[k] in s.data && Deletable(s, s.base[k])
    ensures var v := BaseView(s); Used(BaseView(Delete(s, s.base[k]))) == Used(v[..k]) + Used(v[k + 1..])
  {
    hide *;
    DeleteKeeps(s, k);
  }

  lemma DeleteFrees<Id>(s: State<Id>, k: nat)
    requires WF(s) && Sound(BaseView(s)) && k < |s.base| && s.base[k] in s.data && Deletable(s, s.base[k])
    ensures InFreeSpace(BaseView(Delete(s, s.base[k])), BaseView(s)[k])
  {
    hide *;
    DeleteEffect(s, k);
    MergedHolds(BaseView(s), k);
  }

  lemma DeletableIff<Id>(s: State<Id>, k: nat)
    requires WF(s) && Sound(BaseView(s)) && k < |s.base|
    requires forall i :: 0 <= i < |s.drivers| ==> Plain(s.drivers[i])
    ensures s.base[k] in s.data
    ensures Deletable(s, s.base[k]) <==>
      BaseView(s)[k].ptype != MapType && !HoldsDriver(s.drivers, BaseView(s)[k])
  {
    ElementAt(s.base, k);
    DriversInside(s.drivers, BaseView(s)[k]);
  }

  lemma DeleteRefused<Id>(s: State<Id>, id: Id)
    requires WF(s) && id in s.data && !Deletable(s, id)
    ensures Delete(s, id) == s
  {
  }

  lemma MergedHolds(v: seq<Dpme>, k: nat)
    requires Sound(v) && k < |v|
    ensures var lo, hi := MergeLow(v, k), MergeHigh(v, k);
      && v[lo].start <= End(v[hi]) < U32
      && InFreeSpace(Splice(v, lo, hi + 1, [Merged(v, lo, hi)]), v[k])
  {
    MergeTouches(v, k);
    var lo, hi := MergeLow(v, k), MergeHigh(v, k);
    hide Sound, MergeLow, MergeHigh;
    var w := Splice(v, lo, hi + 1, [Merged(v, lo, hi)]);
    assert w[lo] == Merged(v, lo, hi);
  }

  // ----- resizing

  /** Entry `k` is followed by a free one. */
  predicate FreeBehind(v: seq<Dpme>, k: nat) {
    k + 1 < |v| && v[k + 1].ptype == FreeType
  }

  /** Entry `k` is followed by a free one that touches it. */
  predicate FreeNext(v: seq<Dpme>, k: nat)
    requires k < |v|
  {
    FreeBehind(v, k) && v[k + 1].start == End(v[k])
  }

  /**
   The map's own entry `k` may become [1, 1 + newSize): a smaller one has a block for every
   entry, one more if nothing free is behind it; a larger one ends with the free entry that
   touches it or before.
   */
  predicate Resizes(v: seq<Dpme>, k: nat, newSize: int)
    requires k < |v|
  {
    if newSize < v[k].blocks then |v| + (if FreeBehind(v, k) then 0 else 1) <= newSize
    else v[k].blocks < newSize && FreeNext(v, k) && v[k].start + newSize <= End(v[k + 1])
  }

  /** How many entries there are then. */
  function ResizedCount(v: seq<Dpme>, k: nat, newSize: int): int
    requires k < |v|
  {
    if !FreeNext(v, k) then |v| + 1 else if v[k].start + newSize == End(v[k + 1]) then |v| - 1 else |v|
  }

  /** Entry `k` is the first one for the map itself. */
  predicate IsOwn(v: seq<Dpme>, k: nat) {
    k < |v| && v[k].ptype == MapType && forall j :: 0 <= j < k ==> v[j].ptype != MapType
  }

  lemma ResizesIff(v: seq<Dpme>, k: nat, newSize: int)
    requires Sound(v) && IsOwn(v, k)
    ensures MapIndex(v) == k && (ResizeStarts(v, newSize) <==> Resizes(v, k, newSize))
    ensures EntriesAfter(v, newSize) == ResizedCount(v, k, newSize)
  {
    MapIndexUnique(v, k);
    hide MapIndex;
    assert k + 1 < |v| ==> End(v[k]) <= v[k + 1].start;
  }

  /**
   A resize of a map whose own entry starts at block 1 and holds no driver changes nothing
   if the new size is not allowed; if it is, the entry has exactly that size afterwards and
   all others in use stay, provided the map has room for as many entries; if it has not,
   the map's own entry is gone.
   */
  lemma ResizeSays<Id>(s: State<Id>, k: nat, newSize: int, ids: seq<Id>)
    requires WF(s) && Sound(BaseView(s)) && FreshIds(s, ids, ResizeAllocates(s, newSize))
    requires IsOwn(BaseView(s), k) && BaseView(s)[k].start == 1
    requires !HoldsDriver(s.drivers, BaseView(s)[k]) && forall i :: 0 <= i < |s.drivers| ==> Plain(s.drivers[i])
    ensures var v, r := BaseView(s), Resize(s, newSize, ids); var w := BaseView(r);
      if !Resizes(v, k, newSize) then r == s
      else if ResizedCount(v, k, newSize) <= Room(s) then
        && 0 < newSize < U32 && k < |w| == ResizedCount(v, k, newSize)
        && w[k] == CreateData("Apple", MapType, 1, newSize)
        && Used(w) == Used(v[..k]) + [w[k]] + Used(v[k + 1..])
      else Used(w) == Used(v[..k]) + Used(v[k + 1..])
  {
    hide *;
    ResizesIff(BaseView(s), k, newSize);
    ResizingIs(s, k, newSize);
    if Resizes(BaseView(s), k, newSize) {
      ResizeIff(s, newSize, ids);
      OwnEntry(newSize);
    } else {
      ResizeNothing(s, newSize, ids);
    }
  }

  lemma ResizingIs<Id>(s: State<Id>, k: nat, newSize: int)
    requires WF(s) && Sound(BaseView(s)) && IsOwn(BaseView(s), k) && BaseView(s)[k].start == 1
    requires !HoldsDriver(s.drivers, BaseView(s)[k]) && forall i :: 0 <= i < |s.drivers| ==> Plain(s.drivers[i])
    ensures k < |BaseView(s)| && Limit(s) == Room(s)
    ensures ResizeStarts(BaseView(s), newSize) ==> Resizing(s, newSize)
  {
    var v := BaseView(s);
    assert End(v[k]) < U32;
    DriversInside(s.drivers, v[k]);
    ResizesIff(v, k, newSize);
    hide Sound, ResizeStarts, ContainsDriver, HoldsDriver, MapIndex, Coherent, NoDup, Elements, View;
  }

  lemma ResizeNothing<Id>(s: State<Id>, newSize: int, ids: seq<Id>)
    requires WF(s) && !ResizeStarts(BaseView(s), newSize) && FreshIds(s, ids, ResizeAllocates(s, newSize))
    ensures Resize(s, newSize, ids) == s
  {
    hide Coherent, NoDup, Elements, View, ResizeStarts;
  }

  lemma OwnEntry(newSize: int)
    requires 0 < newSize < U32
    ensures NewMapEntry(newSize) == CreateData("Apple", MapType, 1, newSize)
  {
  }

  // ----- drivers

  /** An entry in use over exactly these blocks holds the driver. */
  ghost predicate Guarded(v: seq<Dpme>, drv: Driver, start: u32, blocks: u32) {
    exists i :: 0 <= i < |v| && v[i].ptype != FreeType && v[i].start == start && v[i].blocks == blocks
      && Inside(drv, v[i])
  }

  lemma {:induction false} UsedHas(v: seq<Dpme>, d: Dpme)
    ensures d in Used(v) <==> exists i :: 0 <= i < |v| && v[i] == d && d.ptype != FreeType
  {
    if v != [] {
      var front, last := v[..|v| - 1], v[|v| - 1];
      UsedHas(front, d);
      if i :| 0 <= i < |v| && v[i] == d && d.ptype != FreeType {
        if i < |v| - 1 {
          assert front[i] == d;
        }
      }
      if i :| 0 <= i < |front| && front[i] == d && d.ptype != FreeType {
        assert v[i] == d;
      }
      if d == last && d.ptype != FreeType {
        assert v[|v| - 1] == d;
      }
    }
  }

  /** What stays in use goes on holding its drivers. */
  lemma GuardedIn(v: seq<Dpme>, w: seq<Dpme>, i: nat, drv: Driver)
    requires i < |v| && v[i].ptype != FreeType && Inside(drv, v[i]) && v[i] in Used(w)
    ensures Guarded(w, drv, v[i].start, v[i].blocks)
  {
    UsedHas(w, v[i]);
  }

  lemma Guarding(v: seq<Dpme>, drv: Driver, start: u32, blocks: u32) returns (i: nat)
    requires Guarded(v, drv, start, blocks)
    ensures i < |v| && v[i].ptype != FreeType && v[i].start == start && v[i].blocks == blocks && Inside(drv, v[i])
    ensures v[i] in Used(v)
  {
    i :| 0 <= i < |v| && v[i].ptype != FreeType && v[i].start == start && v[i].blocks == blocks && Inside(drv, v[i]);
    UsedHas(v, v[i]);
  }

  lemma MoreUsed<T>(a: seq<T>, b: seq<T>, x: T, d: T)
    requires multiset(b) == multiset(a) + multiset{x} && d in a
    ensures d in b
  {
    assert d in multiset(a) && d in multiset(b);
  }

  lemma CreateGuards<Id>(s: State<Id>, name: string, ptype: PartType, b: u32, len: u32, ids: seq<Id>,
                         drv: Driver, start: u32, blocks: u32)
    requires WF(s) && Sound(BaseView(s)) && 0 < len && b + len < U32 && ptype != FreeType
    requires FreshIds(s, ids, Allocates(s, b, len)) && Guarded(BaseView(s), drv, start, blocks)
    ensures Guarded(BaseView(Create(s, name, ptype, b, len, ids)), drv, start, blocks)
  {
    hide *;
    var v, w := BaseView(s), BaseView(Create(s, name, ptype, b, len, ids));
    var i := Guarding(v, drv, start, blocks);
    CreateIff(s, name, ptype, b, len, ids);
    if Fitting(v, b, len, Room(s)) {
      MoreUsed(Used(v), Used(w), CreateData(name, ptype, b, len), v[i]);
      GuardedIn(v, w, i, drv);
    }
  }

  lemma DeleteGuards<Id>(s: State<Id>, k: nat, drv: Driver, start: u32, blocks: u32)
    requires WF(s) && Sound(BaseView(s)) && k < |s.base| && drv in s.drivers && Plain(drv)
    requires Guarded(BaseView(s), drv, start, blocks)
    ensures s.base[k] in s.data && Guarded(BaseView(Delete(s, s.base[k])), drv, start, blocks)
  {
    ElementAt(s.base, k);
    var v := BaseView(s);
    var i := Guarding(v, drv, start, blocks);
    ProtectedHere(s, k, i, drv);
    hide Used, Sound, WF, Deletable, Inside;
    if Deletable(s, s.base[k]) {
      DeleteUses(s, k);
      OtherUsed(v, k, i);
      GuardedIn(v, BaseView(Delete(s, s.base[k])), i, drv);
    } else {
      DeleteRefused(s, s.base[k]);
    }
  }

  lemma ProtectedHere<Id>(s: State<Id>, k: nat, i: nat, drv: Driver)
    requires WF(s) && Sound(BaseView(s)) && k < |s.base| && i < |s.base| && s.base[k] in s.data
    requires drv in s.drivers && Plain(drv) && Inside(drv, BaseView(s)[i])
    ensures Deletable(s, s.base[k]) ==> i != k
  {
    hide Coherent, NoDup, Elements;
    assert End(BaseView(s)[i]) < U32;
  }

  /** Every other entry in use is in use after the deleted one is taken out. */
  lemma OtherUsed(v: seq<Dpme>, k: nat, i: nat)
    requires k < |v| && i < |v| && i != k && v[i].ptype != FreeType
    ensures v[i] in Used(v[..k]) + Used(v[k + 1..])
  {
    if i < k {
      assert v[..k][i] == v[i];
      UsedHas(v[..k], v[i]);
    } else {
      assert v[k + 1..][i - k - 1] == v[i];
      UsedHas(v[k + 1..], v[i]);
    }
  }

  lemma BlankGuards(v: seq<Dpme>, k: nat, blank: Dpme, drv: Driver, start: u32, blocks: u32)
    requires k < |v| && blank == v[k].(ptype := blank.ptype) && blank.ptype != FreeType
    requires Guarded(v, drv, start, blocks)
    ensures Guarded(v[k := blank], drv, start, blocks)
  {
    var i := Guarding(v, drv, start, blocks);
    assert Inside(drv, v[k := blank][i]);
  }

  lemma ResizeMiddleGuards<Id>(s: State<Id>, drv: Driver, start: u32, blocks: u32)
    requires Managed(s) && MapIndex(BaseView(s)) < |s.base| && drv in s.drivers && Plain(drv)
    requires Guarded(BaseView(s), drv, start, blocks)
    ensures Guarded(BaseView(ResizeMiddle(s)), drv, start, blocks) && ResizeMiddle(s).drivers == s.drivers
  {
    var k := MapIndex(BaseView(s));
    var blank := BaseView(s)[k].(ptype := OtherType(""));
    UpdateViews(s, k, blank);
    hide Coherent, NoDup, Elements, View, Sound, Coalesced, Covers, Delete, MapIndex, Guarded;
    BlankConserves(BaseView(s), k, blank);
    BlankGuards(BaseView(s), k, blank, drv, start, blocks);
    var s1 := s.(data := s.data[s.base[k] := blank]);
    DeleteGuards(s1, k, drv, start, blocks);
    DeleteFixed(s1, s.base[k]);
  }

  lemma ResizeGuards<Id>(s: State<Id>, newSize: int, ids: seq<Id>, drv: Driver, start: u32, blocks: u32)
    requires Managed(s) && FreshIds(s, ids, ResizeAllocates(s, newSize)) && drv in s.drivers && Plain(drv)
    requires Guarded(BaseView(s), drv, start, blocks)
    ensures var r := Resize(s, newSize, ids); Guarded(BaseView(r), drv, start, blocks) && r.drivers == s.drivers
  {
    hide Coherent, NoDup, Elements, View, Sound, Coalesced, Covers, Create, ResizeMiddle, Accepts, Guarded;
    if ResizeStarts(BaseView(s), newSize) {
      ResizeProper(BaseView(s), newSize);
      ResizeMiddleStep(s);
      ResizeMiddleGuards(s, drv, start, blocks);
      CreateGuards(ResizeMiddle(s), "Apple", MapType, 1, ToU32(newSize), ids, drv, start, blocks);
      CreateFixed(ResizeMiddle(s), "Apple", MapType, 1, ToU32(newSize), ids);
    }
  }

  /** Whatever the command, an entry in use that holds a driver goes on doing so, over the same blocks. */
  lemma StepGuards<Id>(s: State<Id>, c: Command, ids: seq<Id>, drv: Driver, start: u32, blocks: u32)
    requires Managed(s) && Proper(c) && FreshIds(s, ids, StepAllocates(s, c)) && drv in s.drivers && Plain(drv)
    requires Guarded(BaseView(s), drv, start, blocks)
    ensures var r := Step(s, c, ids); Guarded(BaseView(r), drv, start, blocks) && r.drivers == s.drivers
  {
    hide Coherent, Create, Delete, Resize, Allocates, ResizeAllocates, FreshIds, Guarded, Sound, Covers, NoDup,
        Elements, View;
    match c
    case CreateCommand(name, ptype, b, len) =>
      if Creatable(ptype) {
        CreatableUsed(ptype);
        CreateGuards(s, name, ptype, b, len, ids, drv, start, blocks);
        CreateFixed(s, name, ptype, b, len, ids);
      }
    case DeleteCommand(n) =>
      if 1 <= n <= |s.disk| {
        EntryPlace(s, n - 1);
        DeleteGuards(s, IndexOf(s.base, s.disk[n - 1]), drv, start, blocks);
        DeleteFixed(s, s.disk[n - 1]);
      }
    case ReorderCommand(from, to) =>
    case ResizeCommand(size) => ResizeGuards(s, size, ids, drv, start, blocks);
  }

  /** So it is over every run. */
  lemma SessionGuards<Id>(states: seq<State<Id>>, commands: seq<Command>, ids: seq<seq<Id>>, n: nat,
                          drv: Driver, start: u32, blocks: u32)
    requires Session(states, commands, ids) && Managed(states[0]) && n < |states|
    requires forall c :: c in commands ==> Proper(c)
    requires drv in states[0].drivers && Plain(drv) && Guarded(BaseView(states[0]), drv, start, blocks)
    ensures WF(states[n]) && states[n].drivers == states[0].drivers
    ensures Guarded(BaseView(states[n]), drv, start, blocks)
  {
    hide Conserves, Sound, Covers, Guarded;
    SessionKeeps(states, commands, ids, n);
    if 0 < n {
      SessionGuards(states, commands, ids, n - 1, drv, start, blocks);
      SessionKeeps(states, commands, ids, n - 1);
      StepGuards(states[n - 1], commands[n - 1], ids[n - 1], drv, start, blocks);
    }
  }

  // ----- every command

  /** An entry with which the delete command does nothing. */
  ghost predicate Protected(drivers: seq<Driver>, d: Dpme) {
    d.ptype == MapType || HoldsDriver(drivers, d)
  }

  /** What deleting the entry with this number does. */
  lemma DeleteSays<Id>(s: State<Id>, n: int)
    requires WF(s) && Sound(BaseView(s)) && 1 <= n <= |s.disk|
    requires forall i :: 0 <= i < |s.drivers| ==> Plain(s.drivers[i])
    ensures var d, r := DiskView(s)[n - 1], DeleteNumber(s, n);
      if Protected(s.drivers, d) then r == s
      else
        && multiset(Used(BaseView(s))) == multiset(Used(BaseView(r))) + multiset(Used([d]))
        && InFreeSpace(BaseView(r), d)
  {
    EntryPlace(s, n - 1);
    var k := IndexOf(s.base, s.disk[n - 1]);
    DeleteIff(s, k);
    hide Used, Sound, HoldsDriver, InFreeSpace, Delete;
    var v := BaseView(s);
    UsedAround(v, k);
  }

  lemma UsedAround(v: seq<Dpme>, k: nat)
    requires k < |v|
    ensures Used(v) == Used(v[..k]) + Used([v[k]]) + Used(v[k + 1..])
  {
    hide *;
    assert v[k..k + 1] == [v[k]];
    UsedSplice(v, k, k + 1, []);
  }

  /**
   The command of the user and its effect: creating, deleting by number, moving by number and
   resizing do what is said above of them, and a number that no entry has does nothing.
   */
  lemma StepSays<Id>(s: State<Id>, c: Command, ids: seq<Id>)
    requires WF(s) && Sound(BaseView(s)) && Proper(c) && FreshIds(s, ids, StepAllocates(s, c))
    requires forall i :: 0 <= i < |s.drivers| ==> Plain(s.drivers[i])
    ensures var v, r := BaseView(s), Step(s, c, ids); match c
      case CreateCommand(name, ptype, b, len) =>
        if ptype != FreeType && ptype != MapType && Fitting(v, b, len, Room(s)) then
          multiset(Used(BaseView(r))) == multiset(Used(v)) + multiset{CreateData(name, ptype, b, len)}
        else r == s
      case DeleteCommand(n) =>
        if 1 <= n <= |s.disk| && !Protected(s.drivers, DiskView(s)[n - 1]) then
          && multiset(Used(v)) == multiset(Used(BaseView(r))) + multiset(Used([DiskView(s)[n - 1]]))
          && InFreeSpace(BaseView(r), DiskView(s)[n - 1])
        else r == s
      case ReorderCommand(from, to) =>
        if 1 <= from <= |s.disk| then
          && r == s.(disk := r.disk) && |r.disk| == |s.disk|
          && r.disk[(if |s.disk| < to then |s.disk| else if to < 1 then 1 else to) - 1] == s.disk[from - 1]
        else r == s
      case ResizeCommand(size) => r == Resize(s, size, ids)
  {
    hide Coherent, NoDup, Elements, View, Used, Sound, Fitting, HoldsDriver, InFreeSpace, Create, Delete, Resize,
        Allocates, ResizeAllocates, Accepts;
    match c
    case CreateCommand(name, ptype, b, len) =>
      if Creatable(ptype) {
        CreateIff(s, name, ptype, b, len, ids);
      }
    case DeleteCommand(n) =>
      if 1 <= n <= |s.disk| {
        DeleteSays(s, n);
      }
    case ReorderCommand(from, to) =>
      if 1 <= from <= |s.disk| {
        ReorderMoves(s, from, to);
      }
    case ResizeCommand(_) =>
  }
}
