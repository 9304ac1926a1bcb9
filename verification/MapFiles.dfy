/** Writing a partition map to its disk and opening it again. */
module MapFiles {
  import opened Words
  import opened Seqs
  import opened MapModel
  import opened Geometry
  import opened Views
  import opened Entries
  import opened PartitionMaps

  const DPME_SIGNATURE: u16 := 0x504D

  /** Any 512-byte block, read as a partition map entry. */
  datatype Block = Block(signature: u16, mapEntries: u32, data: Dpme)

  /** The readable blocks of a device and their contents. */
  type Image = map<int, Block>

  class Device {
    var blocks: Image

    /** read_block */
    method Read(num: int) returns (ok: bool, b: Block)
      ensures ok == (num in blocks) && (ok ==> b == blocks[num])
    {
      ok := num in blocks;
      b := if ok then blocks[num] else Block(0, 0, FreeData(0, 0));
    }

    /** write_block */
    method Write(num: int, b: Block)
      modifies this
      ensures blocks == old(blocks)[num := b]
    {
      blocks := blocks[num := b];
    }
  }

  // ----- writing

  /** The block of a map entry. */
  function EntryBlock(d: Dpme, n: u32): Block {
    Block(DPME_SIGNATURE, n, d)
  }

  /** Clearing the first byte of a block: on disk that is the high byte of the signature. */
  function Zapped(b: Block): Block {
    b.(signature := b.signature % 0x100)
  }

  /** The image after the first `k` of the entries `w`, which record `count`, are written to blocks 1..k. */
  function WithEntries(image: Image, w: seq<Dpme>, count: u32, k: nat): (r: Image)
    requires k <= |w|
  {
    if k == 0 then image else WithEntries(image, w, count, k - 1)[k := EntryBlock(w[k - 1], count)]
  }

  lemma WithEntriesAre(image: Image, w: seq<Dpme>, count: u32, k: nat)
    requires k <= |w|
    ensures var r := WithEntries(image, w, count, k);
      && (forall x :: x in r <==> x in image || 1 <= x <= k)
      && (forall x :: x in r ==> r[x] == if 1 <= x <= k then EntryBlock(w[x - 1], count) else image[x])
  {
  }

  /** write_partition_map on a map of capacity `maximum` with entries `w` that record `count`. */
  function Written(image: Image, block0: Block, w: seq<Dpme>, count: u32, maximum: int): Image {
    var r := WithEntries(image[0 := block0], w, count, |w|);
    var next := |w| + 1;
    if 0 < maximum && |w| < maximum && next in r then r[next := Zapped(r[next])] else r
  }

  /** What the loop over the entries goes by. */
  lemma ToWrite(m: PartitionMap) returns (w: seq<Dpme>, count: int)
    requires m.Valid() && 0 < |m.disk| < U32
    ensures w == DiskView(m.Model()) && |w| == |m.disk| && count == m.Count() < U32 && m.diskOrder == m.disk[0]
    ensures forall i :: 0 <= i < |m.disk| ==>
      var e := m.disk[i];
      && e.diskAddress == i + 1 && e.nextOnDisk == At(m.disk, i + 1)
      && e.data == w[i] && e.mapEntries == count
  {
    w, count := DiskView(m.Model()), m.Count();
    m.DiskHolds();
    hide Coherent, NoDup, Elements, ByBase, View;
  }

  lemma NoEntries(image: Image, w: seq<Dpme>, count: u32)
    ensures WithEntries(image, w, count, 0) == image
  {
  }

  lemma NextEntry(image: Image, w: seq<Dpme>, count: u32, k: nat)
    requires k < |w|
    ensures WithEntries(image, w, count, k + 1) == WithEntries(image, w, count, k)[k + 1 := EntryBlock(w[k], count)]
  {
  }

  /** The block behind the last entry is cleared, if the map may have one there. */
  method ClearNext(device: Device, last: nat, maximum: int)
    modifies device
    ensures var r, next := old(device.blocks), last + 1;
      device.blocks == if 0 < maximum && last < maximum && next in r then r[next := Zapped(r[next])] else r
  {
    if 0 < maximum && last < maximum {
      var i := last + 1;
      var ok, b := device.Read(i);
      if ok {
        device.Write(i, Zapped(b));
      }
    }
  }

  /** write_partition_map */
  method WritePartitionMap(m: PartitionMap, device: Device, block0: Block)
    requires m.Valid() && 0 < |m.disk| < U32
    modifies device
    ensures m.Count() < U32
    ensures device.blocks == Written(old(device.blocks), block0, DiskView(m.Model()), m.Count(), m.maximumInMap)
  {
    ghost var w, count := ToWrite(m);
    hide Coherent, NoDup, Elements, ByBase, View, WithEntries, EntryBlock, Zapped, PartitionMap.Linked, DiskView,
        PartitionMap.Valid, PartitionMap.Model;
    device.Write(0, block0);
    ghost var before := device.blocks;
    NoEntries(before, w, count);
    var i := 0;
    var entry := m.diskOrder;
    while entry != null
      invariant 0 <= i <= |m.disk| && entry == At(m.disk, i)
      invariant device.blocks == WithEntries(before, w, count, i)
      decreases |m.disk| - i
    {
      assert entry == m.disk[i];
      NextEntry(before, w, count, i);
      device.Write(entry.diskAddress, EntryBlock(entry.data, entry.mapEntries));
      i := entry.diskAddress;
      entry := entry.nextOnDisk;
    }
    ClearNext(device, i, m.maximumInMap);
  }

  // ----- opening

  predicate IsEntry(image: Image, i: int, count: u32) {
    i in image && image[i].signature == DPME_SIGNATURE && image[i].mapEntries == count
  }

  /** Blocks 1..k are entries of a map of `count` entries. */
  predicate EntriesTo(image: Image, count: u32, k: nat) {
    forall i :: 1 <= i <= k ==> IsEntry(image, i, count)
  }

  /** The blocks of a partition map are all there, marked as such, and agree on how many there are. */
  predicate Opens(image: Image) {
    1 in image && EntriesTo(image, image[1].mapEntries, EntryCount(image))
  }

  /** The entries in blocks 1..k. */
  function EntriesAt(image: Image, count: u32, k: nat): (w: seq<Dpme>)
    requires EntriesTo(image, count, k)
    ensures |w| == k
    ensures forall i :: 0 <= i < k ==> IsEntry(image, i + 1, count) && w[i] == image[i + 1].data
  {
    if k == 0 then []
    else
      assert IsEntry(image, k, count);
      EntriesAt(image, count, k - 1) + [image[k].data]
  }

  /** Even a count of zero makes read_partition_map read one entry. */
  function EntryCount(image: Image): nat
    requires 1 in image
  {
    if image[1].mapEntries == 0 then 1 else image[1].mapEntries
  }

  /** The capacity of a map with these entries: the size of the first map entry among them. */
  function Capacity(w: seq<Dpme>): int {
    if w == [] then -1 else NewMaximum(Capacity(w[..|w| - 1]), w[|w| - 1])
  }

  /** The first map entry fixes the capacity, unless its size does not fit a C int; without one there is none. */
  lemma {:induction false} CapacityIs(w: seq<Dpme>, i: nat)
    requires i <= |w| && forall j :: 0 <= j < i ==> w[j].ptype != MapType
    requires i < |w| ==> w[i].ptype == MapType && w[i].blocks < 0x8000_0000
    ensures Capacity(w) == if i < |w| then w[i].blocks else -1
  {
    if w != [] {
      CapacityIs(w[..|w| - 1], if i < |w| then i else i - 1);
    }
  }

  ghost predicate Ascending(v: seq<Dpme>) {
    forall i, j :: 0 <= i < j < |v| ==> v[i].start <= v[j].start
  }

  /** The map holds the entries `w` in disk order, and the same entries sorted in base order. */
  ghost predicate Holding<Id>(s: State<Id>, w: seq<Dpme>) {
    && WF(s) && DiskView(s) == w && s.maximum == Capacity(w)
    && Ascending(BaseView(s)) && multiset(BaseView(s)) == multiset(w)
  }

  lemma InsertAscendingAt(v: seq<Dpme>, q: nat, d: Dpme)
    requires Ascending(v) && q <= |v|
    requires forall j :: 0 <= j < q ==> v[j].start <= d.start
    requires forall j :: q <= j < |v| ==> d.start <= v[j].start
    ensures Ascending(InsertAt(v, q, d))
    ensures multiset(InsertAt(v, q, d)) == multiset(v) + multiset{d}
  {
    assert v == v[..q] + v[q..];
    var r := InsertAt(v, q, d);
    forall i, j | 0 <= i < j < |r| ensures r[i].start <= r[j].start {
      InsertIndex(v, q, d, i);
      InsertIndex(v, q, d, j);
    }
  }

  lemma InsertIndex<T>(s: seq<T>, k: nat, x: T, i: nat)
    requires k <= |s| && i <= |s|
    ensures InsertAt(s, k, x)[i] == if i < k then s[i] else if i == k then x else s[i - 1]
  {
  }

  lemma InsertAscending(v: seq<Dpme>, d: Dpme)
    requires Ascending(v)
    ensures var q := FirstAtLeast(Starts(v), d.start);
      Ascending(InsertAt(v, q, d)) && multiset(InsertAt(v, q, d)) == multiset(v) + multiset{d}
  {
    var q := FirstAtLeast(Starts(v), d.start);
    assert forall j :: 0 <= j < q ==> v[j].start == Starts(v)[j];
    InsertAscendingAt(v, q, d);
  }

  lemma InsertLast<T>(s: seq<T>, x: T)
    ensures InsertAt(s, |s|, x) == s + [x]
  {
  }

  /** Adding the next entry of the disk appends it to disk order and sorts it into base order. */
  lemma HoldingNext<Id>(s: State<Id>, w: seq<Dpme>, id: Id, d: Dpme)
    requires Holding(s, w) && id !in s.data
    ensures AddData(s, id, d, |s.disk|).disk == s.disk + [id]
    ensures Holding(AddData(s, id, d, |s.disk|), w + [d])
  {
    hide Coherent, NoDup, Elements, View, Starts, Ascending;
    hide InsertAt;
    InsertViews(s, id, d, |s.disk|, BasePlace(s, d.start));
    InsertAscending(BaseView(s), d);
    InsertLast(w, d);
    InsertLast(s.disk, id);
    assert (w + [d])[..|w|] == w;
  }

  /** The state of read_partition_map after it has added `k` entries. */
  ghost predicate ReadSoFar(m: PartitionMap, image: Image, count: u32, k: nat)
    requires EntriesTo(image, count, k)
    reads m, m.disk, m.base, m.contents.Keys
  {
    && m.Linked() && Holding(m.Model(), EntriesAt(image, count, k)) && |m.disk| == k
    && Addressed(m.disk, Numbers(k))
    && forall i :: 0 <= i < k ==> m.disk[i].mapEntries == count
  }

  lemma StartReading(m: PartitionMap, image: Image, count: u32)
    requires m.Valid() && m.Model().(media := 0, drivers := []) == State([], [], map[], -1, 0, [])
    ensures EntriesTo(image, count, 0) && ReadSoFar(m, image, count, 0)
  {
  }

  lemma EntriesToNext(image: Image, count: u32, k: nat)
    requires 0 < k
    ensures EntriesTo(image, count, k) <==> EntriesTo(image, count, k - 1) && IsEntry(image, k, count)
  {
    assert EntriesTo(image, count, k) ==> IsEntry(image, k, count);
  }

  /** The call of add_data_to_map in read_partition_map. */
  method AddBlock(m: PartitionMap, b: Block, index: nat, ghost image: Image)
    requires 0 < index && EntriesTo(image, b.mapEntries, index - 1) && EntriesTo(image, b.mapEntries, index)
    requires index in image && b == image[index] && ReadSoFar(m, image, b.mapEntries, index - 1)
    modifies m, m.contents.Keys
    ensures ReadSoFar(m, image, b.mapEntries, index)
    ensures fresh(m.contents.Keys - old(m.contents.Keys))
    ensures m.mediaSize == old(m.mediaSize) && m.drivers == old(m.drivers) && m.changed == old(m.changed)
  {
    hide Coherent, NoDup, OnDisk, ByBase, Elements, View, Holding, AddData, PartitionMap.Linked, EntriesTo, WF;
    ghost var was := m.Model();
    ghost var disk := m.disk;
    FirstAtLeastUnique(Numbers(index - 1), index, index - 1);
    var entry := m.AddDataToMap(b.data, b.mapEntries, index, Numbers(index - 1));
    HoldingNext(was, EntriesAt(image, b.mapEntries, index - 1), entry, b.data);
    assert m.disk == disk + [entry];
  }

  /** read_partition_map on an empty header. */
  method ReadPartitionMap(m: PartitionMap, device: Device) returns (ok: bool)
    requires m.Valid() && m.Model().(media := 0, drivers := []) == State([], [], map[], -1, 0, [])
    modifies m, m.contents.Keys
    ensures ok == Opens(device.blocks) && fresh(m.contents.Keys - old(m.contents.Keys))
    ensures m.drivers == old(m.drivers) && m.mediaSize == old(m.mediaSize)
    ensures ok ==> ReadSoFar(m, device.blocks, device.blocks[1].mapEntries, EntryCount(device.blocks))
  {
    hide ReadSoFar, EntriesTo, Coherent, NoDup, OnDisk, ByBase, View, Elements;
    var image := device.blocks;
    var read, b := device.Read(1);
    if !read || b.signature != DPME_SIGNATURE {
      if read {
        EntriesToEach(image, b.mapEntries, EntryCount(image), 1);
      }
      return false;
    }
    var limit := b.mapEntries;
    var index := 1;
    StartReading(m, image, limit);
    EntriesToNext(image, limit, 1);
    while true
      invariant device.blocks == image
      invariant 1 <= index <= EntryCount(image) && IsEntry(image, index, limit) && b == image[index]
      invariant EntriesTo(image, limit, index - 1) && EntriesTo(image, limit, index)
      invariant ReadSoFar(m, image, limit, index - 1)
      invariant fresh(m.contents.Keys - old(m.contents.Keys))
      invariant m.drivers == old(m.drivers) && m.mediaSize == old(m.mediaSize)
      decreases EntryCount(image) - index
    {
      AddBlock(m, b, index, image);
      if limit <= index {
        break;
      }
      index := index + 1;
      read, b := device.Read(index);
      if !read || b.signature != DPME_SIGNATURE || b.mapEntries != limit {
        EntriesToEach(image, limit, EntryCount(image), index);
        return false;
      }
      EntriesToNext(image, limit, index);
    }
    ok := true;
  }

  lemma EntriesToEach(image: Image, count: u32, k: nat, i: int)
    requires 1 <= i <= k
    ensures EntriesTo(image, count, k) ==> IsEntry(image, i, count)
  {
  }

  // ----- what is written, and what comes back

  /**
   Writing changes block 0 and the blocks of the entries, and of one block after them at
   most the first byte.
   */
  lemma WrittenAt(image: Image, block0: Block, w: seq<Dpme>, count: u32, maximum: int, x: int)
    ensures var r := Written(image, block0, w, count, maximum);
      && (x == 0 ==> x in r && r[x] == block0)
      && (1 <= x <= |w| ==> x in r && r[x] == EntryBlock(w[x - 1], count))
      && (x < 0 || |w| + 1 < x || (x == |w| + 1 && maximum <= |w|) ==>
            (x in r) == (x in image) && (x in r ==> r[x] == image[x]))
      && (x == |w| + 1 && |w| < maximum ==> (x in r) == (x in image) && (x in r ==> r[x] == Zapped(image[x])))
  {
    WithEntriesAre(image[0 := block0], w, count, |w|);
    var r := WithEntries(image[0 := block0], w, count, |w|);
    assert x in r <==> (x in image[0 := block0] || 1 <= x <= |w|);
  }

  /** The count that the entries of a map of `n` entries may record: `n`, or zero for a single one. */
  predicate Counts(count: int, n: nat) {
    count == n || (n == 1 && count == 0)
  }

  lemma EntriesOpen(r: Image, w: seq<Dpme>, count: u32)
    requires 0 < |w| && Counts(count, |w|)
    requires forall x :: 1 <= x <= |w| ==> x in r && r[x] == EntryBlock(w[x - 1], count)
    ensures 1 in r && r[1].mapEntries == count && EntryCount(r) == |w|
    ensures EntriesTo(r, count, |w|) && EntriesAt(r, count, |w|) == w
  {
    assert EntriesTo(r, count, |w|);
    hide IsEntry, EntriesTo;
    forall i | 0 <= i < |w| ensures EntriesAt(r, count, |w|)[i] == w[i] {
    }
  }

  /** What was written opens, and gives the same entries under the same numbers. */
  lemma WrittenOpens(image: Image, block0: Block, w: seq<Dpme>, count: u32, maximum: int)
    requires 0 < |w| && Counts(count, |w|)
    ensures var r := Written(image, block0, w, count, maximum);
      && Opens(r) && r[1].mapEntries == count && EntryCount(r) == |w|
      && EntriesTo(r, count, |w|) && EntriesAt(r, count, |w|) == w
  {
    hide Written, EntriesAt, EntriesTo, EntryBlock, Counts;
    var r := Written(image, block0, w, count, maximum);
    forall x | 1 <= x <= |w| ensures x in r && r[x] == EntryBlock(w[x - 1], count) {
      WrittenAt(image, block0, w, count, maximum, x);
    }
    EntriesOpen(r, w, count);
  }

  ghost predicate StrictlyAscending(v: seq<Dpme>) {
    forall i, j :: 0 <= i < j < |v| ==> v[i].start < v[j].start
  }

  lemma SameHead(v: seq<Dpme>, w: seq<Dpme>)
    requires StrictlyAscending(v) && Ascending(w) && v != [] && multiset(v) == multiset(w)
    ensures w != [] && v[0] == w[0]
  {
    assert v[0] in multiset(w);
    var i :| 0 <= i < |w| && w[i] == v[0];
    assert w[0] in multiset(v);
    var j :| 0 <= j < |v| && v[j] == w[0];
    FirstStarts(v, w, i, j);
  }

  lemma FirstStarts(v: seq<Dpme>, w: seq<Dpme>, i: nat, j: nat)
    requires StrictlyAscending(v) && Ascending(w) && i < |w| && j < |v|
    ensures w[0].start <= w[i].start && (j == 0 || v[0].start < v[j].start)
  {
  }

  lemma Tails(v: seq<Dpme>, w: seq<Dpme>)
    requires StrictlyAscending(v) && Ascending(w) && v != [] && w != []
    ensures StrictlyAscending(v[1..]) && Ascending(w[1..])
  {
  }

  lemma RestMultiset<T>(v: seq<T>, w: seq<T>)
    requires v != [] && w != [] && v[0] == w[0] && multiset(v) == multiset(w)
    ensures multiset(v[1..]) == multiset(w[1..])
  {
    assert v == [v[0]] + v[1..] && w == [w[0]] + w[1..];
    assert multiset(v[1..]) == multiset(v) - multiset{v[0]};
    assert multiset(w[1..]) == multiset(w) - multiset{w[0]};
  }

  /** Entries with distinct starts can be sorted in one way only. */
  lemma {:induction false} SortedUnique(v: seq<Dpme>, w: seq<Dpme>)
    requires StrictlyAscending(v) && Ascending(w) && multiset(v) == multiset(w)
    ensures v == w
  {
    hide StrictlyAscending, Ascending;
    assert |v| == |multiset(v)| == |multiset(w)| == |w|;
    if v != [] {
      Tails(v, w);
      SameHead(v, w);
      RestMultiset(v, w);
      SortedUnique(v[1..], w[1..]);
    }
  }

  /** The two orders show the same entries. */
  lemma SameEntries<Id>(s: State<Id>)
    requires WF(s)
    ensures multiset(BaseView(s)) == multiset(DiskView(s))
  {
    SameMultiset(s.disk, s.base);
    ViewMultiset(s.disk, s.base, s.data);
  }

  lemma {:induction false} SameMultiset<Id>(a: seq<Id>, b: seq<Id>)
    requires NoDup(a) && NoDup(b) && Elements(a) == Elements(b)
    ensures multiset(a) == multiset(b)
  {
    ElementsAre(a);
    ElementsAre(b);
    if a == [] {
      assert b == [] by { if b != [] { ElementAt(b, 0); } }
    } else {
      ElementAt(a, 0);
      var i := IndexOf(b, a[0]);
      RemoveNoDup(a, 0);
      RemoveNoDup(b, i);
      SameMultiset(RemoveAt(a, 0), RemoveAt(b, i));
      RemoveMultiset(a, 0);
      RemoveMultiset(b, i);
    }
  }

  lemma RemoveMultiset<T>(s: seq<T>, i: nat)
    requires i < |s|
    ensures multiset(s) == multiset(RemoveAt(s, i)) + multiset{s[i]} && |RemoveAt(s, i)| == |s| - 1
  {
    assert s == s[..i] + [s[i]] + s[i + 1..];
  }

  lemma {:induction false} ViewMultiset<Id>(a: seq<Id>, b: seq<Id>, data: map<Id, Dpme>)
    requires multiset(a) == multiset(b) && Elements(a) <= data.Keys && Elements(b) <= data.Keys
    ensures multiset(View(a, data)) == multiset(View(b, data))
    decreases |a|
  {
    hide *;
    if a == [] {
      assert |b| == |multiset(b)|;
    } else {
      var i := HeadIn(a, b);
      RemoveMultiset(a, 0);
      RemoveMultiset(b, i);
      ViewRemove(a, 0, data);
      ViewRemove(b, i, data);
      ShorterMultiset(a[0], multiset(a), multiset(RemoveAt(a, 0)), multiset(RemoveAt(b, i)));
      ViewMultiset(RemoveAt(a, 0), RemoveAt(b, i), data);
      ViewLook(a, 0, data);
      ViewLook(b, i, data);
      RemoveMultiset(View(a, data), 0);
      RemoveMultiset(View(b, data), i);
    }
  }

  lemma HeadIn<T>(a: seq<T>, b: seq<T>) returns (i: nat)
    requires multiset(a) == multiset(b) && a != []
    ensures i < |b| && b[i] == a[0]
  {
    assert a[0] in multiset(b);
    i :| 0 <= i < |b| && b[i] == a[0];
  }

  lemma ShorterMultiset<T>(x: T, m: multiset<T>, r: multiset<T>, s: multiset<T>)
    requires m == r + multiset{x} == s + multiset{x}
    ensures r == s
  {
    assert r == m - multiset{x} == s;
  }

  lemma ViewLook<Id>(s: seq<Id>, i: nat, data: map<Id, Dpme>)
    requires i < |s| && Elements(s) <= data.Keys
    ensures s[i] in data && |View(s, data)| == |s| && View(s, data)[i] == data[s[i]]
  {
    var v := View(s, data);
  }

  lemma ViewRemove<Id>(s: seq<Id>, i: nat, data: map<Id, Dpme>)
    requires i < |s| && Elements(s) <= data.Keys
    ensures Elements(RemoveAt(s, i)) <= data.Keys
    ensures View(RemoveAt(s, i), data) == RemoveAt(View(s, data), i)
  {
    var r := RemoveAt(s, i);
    ElementsAre(s);
    ElementsAre(r);
    forall j | 0 <= j < |r| ensures View(r, data)[j] == RemoveAt(View(s, data), i)[j] {
      assert r[j] == if j < i then s[j] else s[j + 1];
    }
  }

  lemma SoundAscends(v: seq<Dpme>)
    requires Sound(v)
    ensures StrictlyAscending(v)
  {
    forall i, j | 0 <= i < j < |v| ensures v[i].start < v[j].start {
      assert End(v[i]) <= v[j].start && 0 < v[i].blocks;
    }
  }

  /** Opening what was written from a map with distinct starts, as in any sound one, restores both of its orders. */
  lemma RoundTrip<Id>(s: State<Id>, image: Image, block0: Block, count: u32, maximum: int, r: State<Id>)
    requires WF(s) && StrictlyAscending(BaseView(s)) && 0 < |s.disk| && Counts(count, |s.disk|)
    requires var w := Written(image, block0, DiskView(s), count, maximum);
      Opens(w) ==> Holding(r, EntriesAt(w, w[1].mapEntries, EntryCount(w)))
    ensures Opens(Written(image, block0, DiskView(s), count, maximum))
    ensures WF(r) && DiskView(r) == DiskView(s) && BaseView(r) == BaseView(s)
  {
    WrittenOpens(image, block0, DiskView(s), count, maximum);
    SameEntries(s);
    SortedUnique(BaseView(s), BaseView(r));
  }

  /** Saving a map and opening the disk again gives a map with the same entries in both orders. */
  method SaveAndReopen(m: PartitionMap, device: Device, block0: Block) returns (ok: bool, r: PartitionMap)
    requires m.Valid() && 0 < |m.disk| < U32 && StrictlyAscending(BaseView(m.Model()))
    modifies device
    ensures fresh(r) && ok && r.Valid()
    ensures WF(m.Model()) && WF(r.Model()) && m.Model() == old(m.Model())
    ensures DiskView(r.Model()) == DiskView(m.Model()) && BaseView(r.Model()) == BaseView(m.Model())
  {
    hide Coherent, NoDup, Elements, View, OnDisk, ByBase, Written, Opens, EntriesTo, EntriesAt, StrictlyAscending;
    ghost var s, image := m.Model(), device.blocks;
    WritePartitionMap(m, device, block0);
    ghost var count := m.Count();
    Counted(m);
    WrittenOpens(image, block0, DiskView(s), count, s.maximum);
    r := new PartitionMap.Empty(m.mediaSize, m.drivers);
    ok := ReadPartitionMap(r, device);
    hide ReadSoFar, Holding;
    ReadNumbered(r, device.blocks);
    RoundTrip(s, image, block0, count, s.maximum, r.Model());
  }

  lemma SomeEntries<Id>(s: State<Id>, a: int, b: int)
    requires WF(s) && Tiles(BaseView(s), a, b)
    ensures 0 < |s.disk|
  {
  }

  lemma Counted(m: PartitionMap)
    requires m.Valid()
    ensures Counts(m.Count(), |m.disk|)
  {
    hide Coherent, OnDisk, ByBase;
  }

  /** A map that was read is well formed, and its entries record the count on the disk. */
  lemma ReadNumbered(m: PartitionMap, image: Image)
    requires Opens(image) && ReadSoFar(m, image, image[1].mapEntries, EntryCount(image))
    ensures m.Valid() && m.Count() == image[1].mapEntries
    ensures Holding(m.Model(), EntriesAt(image, image[1].mapEntries, EntryCount(image)))
  {
    hide Coherent, OnDisk, ByBase, Holding, EntriesAt, EntriesTo;
  }
}
