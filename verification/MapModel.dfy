/**
 The abstract partition map: two orders over one set of entries, and the
 effect of every editing operation of partition_map.c on them.  Entries are
 named by an arbitrary identity type; the heap class uses its list nodes.
 */
module MapModel {
  import opened Words
  import opened Seqs

  /** The partition types the editor tells apart; a blanked type is OtherType(""). */
  datatype PartType = FreeType | MapType | OtherType(name: string)

  /**
   A partition map entry (struct dpme).  `boot` is everything the editor never looks
   at; the signature and the entry count are the same for all entries of a map.
   */
  datatype Dpme = Dpme(
    start: u32, blocks: u32, name: string, ptype: PartType,
    lstart: u32, lblocks: u32, flags: u32, boot: seq<u8>)

  /** A driver descriptor of block zero (struct DDMap). */
  datatype Driver = Driver(block: u32, size: u16)

  datatype State<Id> = State(
    disk: seq<Id>, base: seq<Id>, data: map<Id, Dpme>,
    maximum: int, media: nat, drivers: seq<Driver>)

  datatype Action = Replace | Adjoin | Split

  const NEW_FLAGS: u32 := 0x33   // writable, readable, allocated, valid
  const BLANK_FLAGS: u32 := 0x31 // writable, readable, valid
  const FREE_NAME := "Extra"

  function CreateData(name: string, ptype: PartType, start: u32, blocks: u32): Dpme {
    Dpme(start, blocks, name, ptype, 0, blocks, NEW_FLAGS, [])
  }

  function FreeData(start: u32, blocks: u32): Dpme {
    CreateData(FREE_NAME, FreeType, start, blocks)
  }

  /** Both orders enumerate exactly the entries that have data, each once. */
  ghost predicate Coherent<Id>(disk: seq<Id>, base: seq<Id>, data: map<Id, Dpme>) {
    && NoDup(disk) && NoDup(base)
    && |disk| == |base|
    && Elements(disk) == data.Keys == Elements(base)
  }

  lemma CoherentInsert<Id>(disk: seq<Id>, base: seq<Id>, data: map<Id, Dpme>, id: Id, p: nat, q: nat, d: Dpme)
    requires Coherent(disk, base, data) && id !in data && p <= |disk| && q <= |base|
    ensures Coherent(InsertAt(disk, p, id), InsertAt(base, q, id), data[id := d])
  {
    InsertNoDup(disk, p, id);
    InsertNoDup(base, q, id);
  }

  lemma CoherentWithout<Id>(disk: seq<Id>, base: seq<Id>, data: map<Id, Dpme>, id: Id)
    requires Coherent(disk, base, data) && id in data
    ensures Coherent(Without(disk, id), Without(base, id), data - {id})
  {
    RemoveNoDup(disk, IndexOf(disk, id));
    RemoveNoDup(base, IndexOf(base, id));
  }

  lemma CoherentMove<Id>(disk: seq<Id>, base: seq<Id>, data: map<Id, Dpme>, from: nat, to: nat)
    requires Coherent(disk, base, data) && from < |disk| && to < |disk|
    ensures Coherent(InsertAt(RemoveAt(disk, from), to, disk[from]), base, data)
  {
    RemoveNoDup(disk, from);
    InsertNoDup(RemoveAt(disk, from), to, disk[from]);
  }

  ghost predicate WF<Id>(s: State<Id>) {
    Coherent(s.disk, s.base, s.data)
  }

  /** The entries of one order, as data. */
  ghost function View<Id>(ids: seq<Id>, data: map<Id, Dpme>): (v: seq<Dpme>)
    requires Elements(ids) <= data.Keys
    ensures |v| == |ids|
    ensures forall i :: 0 <= i < |ids| ==> ids[i] in data && v[i] == data[ids[i]]
  {
    ElementsAre(ids);
    ViewTo(ids, data, |ids|)
  }

  ghost function ViewTo<Id>(ids: seq<Id>, data: map<Id, Dpme>, n: nat): (v: seq<Dpme>)
    requires n <= |ids| && forall i :: 0 <= i < n ==> ids[i] in data
    ensures |v| == n
    ensures forall i :: 0 <= i < n ==> v[i] == data[ids[i]]
  {
    if n == 0 then [] else ViewTo(ids, data, n - 1) + [data[ids[n - 1]]]
  }

  ghost function BaseView<Id>(s: State<Id>): (v: seq<Dpme>)
    requires WF(s)
    ensures |v| == |s.base|
  {
    View(s.base, s.data)
  }

  ghost function DiskView<Id>(s: State<Id>): (v: seq<Dpme>)
    requires WF(s)
    ensures |v| == |s.disk|
  {
    View(s.disk, s.data)
  }

  function Starts(v: seq<Dpme>): (r: seq<int>)
    ensures |r| == |v|
    ensures forall i :: 0 <= i < |v| ==> r[i] == v[i].start
  {
    if v == [] then [] else [v[0].start] + Starts(v[1..])
  }

  /** A new entry at position `p` of the disk order and `q` of the base order. */
  ghost function InsertEntry<Id>(s: State<Id>, id: Id, d: Dpme, p: nat, q: nat): (r: State<Id>)
    requires WF(s) && id !in s.data && p <= |s.disk| && q <= |s.base|
    ensures WF(r)
  {
    CoherentInsert(s.disk, s.base, s.data, id, p, q, d);
    s.(disk := InsertAt(s.disk, p, id), base := InsertAt(s.base, q, id), data := s.data[id := d],
       maximum := NewMaximum(s.maximum, d))
  }

  /** Where the base order takes an entry that starts at `start`. */
  ghost function BasePlace<Id>(s: State<Id>, start: u32): (q: nat)
    requires WF(s)
    ensures q <= |s.base|
  {
    FirstAtLeast(Starts(BaseView(s)), start)
  }

  /** A new entry: before position `p` on disk, by first block in base order. */
  ghost function AddData<Id>(s: State<Id>, id: Id, d: Dpme, p: nat): (r: State<Id>)
    requires WF(s) && id !in s.data && p <= |s.disk|
    ensures WF(r)
  {
    InsertEntry(s, id, d, p, BasePlace(s, d.start))
  }

  /** The first entry of a map is all there is in both orders. */
  lemma FirstEntry<Id>(s: State<Id>, id: Id, d: Dpme)
    requires s.disk == [] && s.base == [] && s.data == map[]
    ensures WF(s) && AddData(s, id, d, FirstAtLeast([], 1)).disk == [id]
    ensures BaseView(AddData(s, id, d, 0)) == [d]
  {
    var r := AddData(s, id, d, 0);
    assert r.base == [id];
  }

  /** The first map entry ever added fixes how many entries the map can hold. */
  function NewMaximum(maximum: int, d: Dpme): int {
    if maximum < 0 && d.ptype == MapType then ToInt32(d.blocks) else maximum
  }

  ghost function DeleteEntry<Id>(s: State<Id>, id: Id): (r: State<Id>)
    requires WF(s) && id in s.data
    ensures WF(r)
  {
    CoherentWithout(s.disk, s.base, s.data, id);
    s.(disk := Without(s.disk, id), base := Without(s.base, id), data := s.data - {id})
  }

  // ----- creating a partition

  predicate Holds(d: Dpme, b: u32, len: u32) {
    d.start <= b && Add32(b, len) <= Add32(d.start, d.blocks)
  }

  /** The first entry in base order that holds the request; |v| when none does. */
  function Holder(v: seq<Dpme>, b: u32, len: u32): (k: nat)
    ensures k <= |v|
    ensures forall j :: 0 <= j < k ==> !Holds(v[j], b, len)
    ensures k < |v| ==> Holds(v[k], b, len)
  {
    if v == [] || Holds(v[0], b, len) then 0 else 1 + Holder(v[1..], b, len)
  }

  lemma HolderUnique(v: seq<Dpme>, b: u32, len: u32, k: nat)
    requires k <= |v| && forall j :: 0 <= j < k ==> !Holds(v[j], b, len)
    requires k < |v| ==> Holds(v[k], b, len)
    ensures Holder(v, b, len) == k
  {
  }

  function ActionFor(d: Dpme, b: u32, len: u32): Action {
    if d.start == b then
      if d.blocks == len then Replace else Adjoin
    else if Add32(d.start, d.blocks) == Add32(b, len) then Adjoin
    else Split
  }

  /** How many entries an action adds to the map. */
  function Cost(a: Action): nat {
    match a case Replace => 0 case Adjoin => 1 case Split => 2
  }

  /** What is left of the free entry `d` once [b, b + len) is taken from it. */
  function Remainder(d: Dpme, b: u32, len: u32): Dpme {
    var start := if d.start == b || ActionFor(d, b, len) == Split then Add32(b, len) else d.start;
    var blocks :=
      if d.start == b then Sub32(d.blocks, len)
      else if ActionFor(d, b, len) == Adjoin then Sub32(b, d.start)
      else Sub32(d.blocks, Add32(len, Sub32(b, d.start)));
    d.(start := start, blocks := blocks, lblocks := blocks)
  }

  function Limit<Id>(s: State<Id>): int {
    if s.maximum < 0 then s.media else s.maximum
  }

  /** Whether a create request is carried out. */
  ghost predicate Accepts<Id>(s: State<Id>, b: u32, len: u32)
    requires WF(s)
  {
    var v := BaseView(s);
    var k := Holder(v, b, len);
    && k < |v|
    && v[k].ptype == FreeType
    && |s.disk| + Cost(ActionFor(v[k], b, len)) <= Limit(s)
  }

  /** How many list nodes a create request allocates. */
  ghost function Allocates<Id>(s: State<Id>, b: u32, len: u32): nat
    requires WF(s)
  {
    if Accepts(s, b, len) then Cost(ActionFor(BaseView(s)[Holder(BaseView(s), b, len)], b, len)) else 0
  }

  ghost predicate FreshIds<Id>(s: State<Id>, ids: seq<Id>, n: nat) {
    |ids| == n && NoDup(ids) && forall x :: x in ids ==> x !in s.data
  }

  /** Carrying out an action on entry `cur`, number `p + 1`; `ids` name the new entries. */
  ghost function Place<Id>(s: State<Id>, cur: Id, p: nat, made: Dpme, act: Action, rest: Dpme, below: Dpme,
      ids: seq<Id>): (r: State<Id>)
    requires WF(s) && cur in s.data && p <= |s.disk| && FreshIds(s, ids, Cost(act))
    ensures WF(r)
  {
    match act
    case Replace => s.(data := s.data[cur := made])
    case Adjoin => AddData(s.(data := s.data[cur := rest]), ids[0], made, p)
    case Split => AddData(AddData(s.(data := s.data[cur := rest]), ids[0], made, p), ids[1], below, p)
  }

  /** add_partition_to_map: `ids` name the nodes it allocates, the new partition first. */
  ghost function Create<Id>(s: State<Id>, name: string, ptype: PartType, b: u32, len: u32, ids: seq<Id>): (r: State<Id>)
    requires WF(s) && FreshIds(s, ids, Allocates(s, b, len))
    ensures WF(r)
  {
    if !Accepts(s, b, len) then s else
      var k := Holder(BaseView(s), b, len);
      var d := BaseView(s)[k];
      var cur := s.base[k];
      Place(s, cur, IndexOf(s.disk, cur), CreateData(name, ptype, b, len),
            ActionFor(d, b, len), Remainder(d, b, len), FreeData(d.start, Sub32(b, d.start)), ids)
  }

  // ----- deleting a partition

  predicate ContainsDriver(drivers: seq<Driver>, d: Dpme) {
    exists i :: 0 <= i < |drivers| &&
      d.start <= drivers[i].block && Add32(drivers[i].block, drivers[i].size) <= Add32(d.start, d.blocks)
  }

  predicate Mergeable(left: Dpme, right: Dpme) {
    left.ptype == FreeType && right.ptype == FreeType && Add32(left.start, left.blocks) == right.start
  }

  function Merge(left: Dpme, right: Dpme, keep: Dpme): Dpme {
    var blocks := Add32(left.blocks, right.blocks);
    keep.(start := left.start, blocks := blocks, lblocks := blocks)
  }

  /** The free entry `id` absorbs its successor in base order, if it can. */
  ghost function MergeNext<Id>(s: State<Id>, id: Id): (r: State<Id>)
    requires WF(s) && id in s.data
    ensures WF(r) && id in r.data && r.data.Keys <= s.data.Keys
  {
    var k := IndexOf(s.base, id);
    var v := BaseView(s);
    if k + 1 < |v| && Mergeable(v[k], v[k + 1]) then
      DeleteEntry(s.(data := s.data[id := Merge(v[k], v[k + 1], v[k])]), s.base[k + 1])
    else s
  }

  /** The free entry `id` absorbs its predecessor in base order, if it can. */
  ghost function MergePrev<Id>(s: State<Id>, id: Id): (r: State<Id>)
    requires WF(s) && id in s.data
    ensures WF(r) && id in r.data && r.data.Keys <= s.data.Keys
  {
    var k := IndexOf(s.base, id);
    var v := BaseView(s);
    if 0 < k && Mergeable(v[k - 1], v[k]) then
      DeleteEntry(s.(data := s.data[id := Merge(v[k - 1], v[k], v[k])]), s.base[k - 1])
    else s
  }

  /** combine_entry: a free entry absorbs the free entries it touches. */
  ghost function Combine<Id>(s: State<Id>, id: Id): (r: State<Id>)
    requires WF(s) && id in s.data
    ensures WF(r) && id in r.data && r.data.Keys <= s.data.Keys
  {
    if s.data[id].ptype != FreeType then s else MergePrev(MergeNext(s, id), id)
  }

  ghost predicate Deletable<Id>(s: State<Id>, id: Id)
    requires id in s.data
  {
    s.data[id].ptype != MapType && !ContainsDriver(s.drivers, s.data[id])
  }

  /** delete_partition_from_map. */
  ghost function Delete<Id>(s: State<Id>, id: Id): (r: State<Id>)
    requires WF(s) && id in s.data
    ensures WF(r) && r.data.Keys <= s.data.Keys
  {
    if !Deletable(s, id) then s else
      Combine(s.(data := s.data[id := FreeData(s.data[id].start, s.data[id].blocks)]), id)
  }

  // ----- reordering

  /** The number nearest to `to` among 1..n. */
  function Clamp(to: int, n: nat): (r: int)
    ensures 0 < n ==> 1 <= r <= n
  {
    if n < to then n else if to < 1 then 1 else to
  }

  /** move_entry_in_map: the entry numbered `from` becomes number `to`, clamped to the map. */
  ghost function Reorder<Id>(s: State<Id>, from: int, to: int): (r: State<Id>)
    requires WF(s)
    ensures WF(r)
  {
    if !(1 <= from <= |s.disk|) then s else
      var place := Clamp(to, |s.disk|) - 1;
      CoherentMove(s.disk, s.base, s.data, from - 1, place);
      s.(disk := InsertAt(RemoveAt(s.disk, from - 1), place, s.disk[from - 1]))
  }

  /** The disk addresses of a map with `n` entries. */
  function Numbers(n: nat): (r: seq<int>)
    ensures |r| == n && forall i :: 0 <= i < n ==> r[i] == i + 1
  {
    if n == 0 then [] else Numbers(n - 1) + [n]
  }

  /** An entry that shares the address of another goes right before it, and so does the next one. */
  lemma SamePlaceTwice(n: nat, k: nat)
    requires k < n
    ensures FirstAtLeast(Numbers(n), k + 1) == k
    ensures FirstAtLeast(InsertAt(Numbers(n), k, k + 1), k + 1) == k
  {
    FirstAtLeastUnique(Numbers(n), k + 1, k);
    FirstAtLeastUnique(InsertAt(Numbers(n), k, k + 1), k + 1, k);
  }

  /**
   move_entry_in_map works on addresses: with entry number `from` taken out, an
   entry addressed `to`, or one past it when moving up, lands at number `to`.
   */
  lemma MovePlace(n: nat, from: int, to: int)
    requires 1 <= from <= n
    ensures FirstAtLeast(RemoveAt(Numbers(n), from - 1), if from < to then to + 1 else to) == Clamp(to, n) - 1
  {
    FirstAtLeastUnique(RemoveAt(Numbers(n), from - 1), if from < to then to + 1 else to, Clamp(to, n) - 1);
  }

  // ----- resizing the map itself

  /** The first map entry in base order; |v| when there is none. */
  function MapIndex(v: seq<Dpme>): (k: nat)
    ensures k <= |v|
    ensures forall j :: 0 <= j < k ==> v[j].ptype != MapType
    ensures k < |v| ==> v[k].ptype == MapType
  {
    if v == [] || v[0].ptype == MapType then 0 else 1 + MapIndex(v[1..])
  }

  lemma MapIndexUnique(v: seq<Dpme>, k: nat)
    requires k <= |v| && forall j :: 0 <= j < k ==> v[j].ptype != MapType
    requires k < |v| ==> v[k].ptype == MapType
    ensures MapIndex(v) == k
  {
  }

  /** Whether resize_map gets past its checks and goes on to delete and create. */
  predicate ResizeStarts(v: seq<Dpme>, newSize: int) {
    var k := MapIndex(v);
    && k < |v|
    && newSize != v[k].blocks
    && var nextFree := k + 1 < |v| && v[k + 1].ptype == FreeType;
       if newSize < v[k].blocks then
         |v| + (if nextFree then 0 else 1) <= newSize
       else
         && nextFree
         && Add32(v[k].start, v[k].blocks) == v[k + 1].start
         && newSize <= Add32(v[k].blocks, v[k + 1].blocks)
  }

  lemma NoMapEntry(v: seq<Dpme>, newSize: int)
    requires MapIndex(v) == |v|
    ensures !ResizeStarts(v, newSize)
  {
  }

  /** The state between the two halves of resize_map: type blanked, entry deleted. */
  ghost function ResizeMiddle<Id>(s: State<Id>): (r: State<Id>)
    requires WF(s) && MapIndex(BaseView(s)) < |s.base|
    ensures WF(r) && r.data.Keys <= s.data.Keys
  {
    var id := s.base[MapIndex(BaseView(s))];
    Delete(s.(data := s.data[id := s.data[id].(ptype := OtherType(""))]), id)
  }

  ghost function ResizeAllocates<Id>(s: State<Id>, newSize: int): nat
    requires WF(s)
  {
    if ResizeStarts(BaseView(s), newSize) then Allocates(ResizeMiddle(s), 1, ToU32(newSize)) else 0
  }

  /** resize_map: delete the map entry, then create it again with the new size. */
  ghost function Resize<Id>(s: State<Id>, newSize: int, ids: seq<Id>): (r: State<Id>)
    requires WF(s) && FreshIds(s, ids, ResizeAllocates(s, newSize))
    ensures WF(r)
  {
    if !ResizeStarts(BaseView(s), newSize) then s
    else Create(ResizeMiddle(s), "Apple", MapType, 1, ToU32(newSize), ids)
  }
}
