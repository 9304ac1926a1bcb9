/**
 What creating and deleting partitions does to the extents of a sound map:
 both exchange one run of adjacent entries for another over the same blocks.
 */
module Allocation {
  import opened Words
  import opened Seqs
  import opened MapModel
  import opened Geometry
  import opened Views

  /** A create request that add_partition_to_map grants, on a sound map and without wrap-around. */
  ghost predicate Granted<Id>(s: State<Id>, b: u32, len: u32) {
    WF(s) && Sound(BaseView(s)) && Accepts(s, b, len) && 0 < len && b + len < U32
  }

  /** The free entry a granted request is cut from. */
  ghost function Source<Id>(s: State<Id>, b: u32, len: u32): (k: nat)
    requires Granted(s, b, len)
    ensures k < |s.base|
  {
    Holder(BaseView(s), b, len)
  }

  /** The free entry `d` resized to [start, start + blocks). */
  function Sized(d: Dpme, start: u32, blocks: u32): Dpme {
    d.(start := start, blocks := blocks, lblocks := blocks)
  }

  /** What a free entry `d` becomes when `made` is cut from it, in base order. */
  function Pieces(d: Dpme, made: Dpme): seq<Dpme>
    requires d.start <= made.start && End(made) <= End(d) < U32
  {
    var lower: u32, upper: u32 := made.start - d.start, End(d) - End(made);
    (if lower == 0 then [] else if upper == 0 then [Sized(d, d.start, lower)] else [FreeData(d.start, lower)])
    + [made]
    + (if upper == 0 then [] else [Sized(d, End(made), upper)])
  }

  /** The same pieces in disk order, where the shrunken entry always comes last. */
  function DiskPieces(d: Dpme, made: Dpme): seq<Dpme>
    requires d.start <= made.start && End(made) <= End(d) < U32
  {
    if d.start < made.start && End(made) == End(d) then [made, Pieces(d, made)[0]] else Pieces(d, made)
  }

  /** The entries that carry the pieces; `cur` is the one that held `d`. */
  function PieceIds<Id>(d: Dpme, made: Dpme, cur: Id, ids: seq<Id>): (r: seq<Id>)
    requires d.start <= made.start && End(made) <= End(d) < U32
    requires |ids| == (if d.start < made.start then 1 else 0) + (if End(made) < End(d) then 1 else 0)
    ensures |r| == |Pieces(d, made)|
  {
    if |ids| == 0 then [cur]
    else if |ids| == 2 then [ids[1], ids[0], cur]
    else if d.start < made.start then [cur, ids[0]]
    else [ids[0], cur]
  }

  function DiskPieceIds<Id>(cur: Id, ids: seq<Id>): (r: seq<Id>)
    requires |ids| <= 2
  {
    if |ids| == 0 then [cur] else if |ids| == 1 then [ids[0], cur] else [ids[1], ids[0], cur]
  }

  /** The new partition's piece and the free pieces around it tile what the free entry held. */
  lemma PiecesTile(d: Dpme, made: Dpme)
    requires d.start <= made.start && End(made) <= End(d) < U32 && 0 < made.blocks
    ensures Tiles(Pieces(d, made), d.start, End(d))
  {
  }

  lemma GrantedFits<Id>(s: State<Id>, b: u32, len: u32)
    requires Granted(s, b, len)
    ensures var d := BaseView(s)[Source(s, b, len)];
      && d.ptype == FreeType && d.start <= b && b + len <= End(d) < U32
      && Allocates(s, b, len) == (if d.start < b then 1 else 0) + (if b + len < End(d) then 1 else 0)
      && s.base[Source(s, b, len)] in Elements(s.disk)
  {
    ElementAt(s.base, Source(s, b, len));
  }

  /** Place `q` is where base order takes an entry that starts at `start`. */
  ghost predicate Fits(v: seq<Dpme>, start: u32, q: nat) {
    && q <= |v|
    && (forall j :: 0 <= j < q ==> v[j].start < start)
    && (q < |v| ==> start <= v[q].start)
  }

  lemma AddViews<Id>(s: State<Id>, id: Id, d: Dpme, p: nat, q: nat)
    requires WF(s) && id !in s.data && p <= |s.disk| && Fits(BaseView(s), d.start, q)
    ensures var r := AddData(s, id, d, p);
      && r.base == InsertAt(s.base, q, id) && r.disk == InsertAt(s.disk, p, id)
      && BaseView(r) == InsertAt(BaseView(s), q, d) && DiskView(r) == InsertAt(DiskView(s), p, d)
  {
    FirstAtLeastUnique(Starts(BaseView(s)), d.start, q);
    InsertViews(s, id, d, p, q);
  }

  lemma AddedData<Id>(s: State<Id>, id: Id, d: Dpme, p: nat)
    requires WF(s) && id !in s.data && p <= |s.disk|
    ensures var r := AddData(s, id, d, p); r.data == s.data[id := d] && |r.disk| == |s.disk| + 1
  {
    hide Coherent, View;
  }

  /** How inserting next to an updated element amounts to a splice. */
  lemma InsertSplices<T>(v: seq<T>, k: nat, x: T, y: T, z: T)
    requires k < |v|
    ensures v[k := x] == Splice(v, k, k + 1, [x])
    ensures InsertAt(v[k := x], k, y) == Splice(v, k, k + 1, [y, x])
    ensures InsertAt(v[k := x], k + 1, y) == Splice(v, k, k + 1, [x, y])
    ensures InsertAt(InsertAt(v[k := x], k, y), k, z) == Splice(v, k, k + 1, [z, y, x])
    ensures x == v[k] ==> v[k := x] == v
  {
  }

  /** `r` is `s` with entry `k` of the base order exchanged for the pieces around `made`. */
  ghost predicate CutFrom<Id>(s: State<Id>, k: nat, made: Dpme, ids: seq<Id>, r: State<Id>)
    requires WF(s) && WF(r) && k < |s.base|
  {
    var d := BaseView(s)[k];
    && d.start <= made.start && End(made) <= End(d) < U32
    && |ids| == (if d.start < made.start then 1 else 0) + (if End(made) < End(d) then 1 else 0)
    && s.base[k] in Elements(s.disk)
    && r.base == Splice(s.base, k, k + 1, PieceIds(d, made, s.base[k], ids))
    && BaseView(r) == Splice(BaseView(s), k, k + 1, Pieces(d, made))
    && var p := IndexOf(s.disk, s.base[k]);
    && r.disk == Splice(s.disk, p, p + 1, DiskPieceIds(s.base[k], ids))
    && DiskView(r) == Splice(DiskView(s), p, p + 1, DiskPieces(d, made))
  }

  /** The kReplace case: the pieces are just the new partition. */
  lemma CreateReplaces<Id>(s: State<Id>, k: nat, made: Dpme)
    requires WF(s) && k < |s.base|
    ensures s.base[k] in s.data && s.base[k] in Elements(s.disk)
    ensures var r := s.(data := s.data[s.base[k] := made]); var p := IndexOf(s.disk, s.base[k]);
      && r.base == Splice(s.base, k, k + 1, [s.base[k]]) && BaseView(r) == Splice(BaseView(s), k, k + 1, [made])
      && r.disk == Splice(s.disk, p, p + 1, [s.base[k]]) && DiskView(r) == Splice(DiskView(s), p, p + 1, [made])
  {
    hide *;
    UpdateViews(s, k, made);
    var cur, p := s.base[k], IndexOf(s.disk, s.base[k]);
    InsertSplices(BaseView(s), k, made, made, made);
    InsertSplices(DiskView(s), p, made, made, made);
    InsertSplices(s.base, k, cur, cur, cur);
    InsertSplices(s.disk, p, cur, cur, cur);
  }

  /** The kAdd case: the free entry shrinks to `rest` and `made` goes before or after it. */
  lemma CreateAdjoins<Id>(s: State<Id>, k: nat, made: Dpme, rest: Dpme, id: Id, q: nat)
    requires WF(s) && k < |s.base| && id !in s.data && (q == k || q == k + 1)
    requires Fits(BaseView(s)[k := rest], made.start, q)
    ensures s.base[k] in s.data && s.base[k] in Elements(s.disk)
    ensures var cur, p := s.base[k], IndexOf(s.disk, s.base[k]);
      var r := AddData(s.(data := s.data[cur := rest]), id, made, p);
      && r.base == Splice(s.base, k, k + 1, if q == k then [id, cur] else [cur, id])
      && BaseView(r) == Splice(BaseView(s), k, k + 1, if q == k then [made, rest] else [rest, made])
      && r.disk == Splice(s.disk, p, p + 1, [id, cur]) && DiskView(r) == Splice(DiskView(s), p, p + 1, [made, rest])
  {
    hide *;
    UpdateViews(s, k, rest);
    var cur, p := s.base[k], IndexOf(s.disk, s.base[k]);
    AddViews(s.(data := s.data[cur := rest]), id, made, p, q);
    InsertSplices(BaseView(s), k, rest, made, made);
    InsertSplices(DiskView(s), p, rest, made, made);
    InsertSplices(s.base, k, cur, id, id);
    InsertSplices(s.disk, p, cur, id, id);
  }

  /** The kSplit case: `below` and `made` go before the free entry, shrunk to `rest`. */
  lemma CreateSplits<Id>(s: State<Id>, k: nat, made: Dpme, rest: Dpme, below: Dpme, id: Id, id2: Id)
    requires WF(s) && k < |s.base| && id !in s.data && id2 !in s.data && id != id2
    requires Fits(BaseView(s)[k := rest], made.start, k)
    requires Fits(InsertAt(BaseView(s)[k := rest], k, made), below.start, k)
    ensures s.base[k] in s.data && s.base[k] in Elements(s.disk)
    ensures var cur, p := s.base[k], IndexOf(s.disk, s.base[k]);
      var r := AddData(AddData(s.(data := s.data[cur := rest]), id, made, p), id2, below, p);
      && r.base == Splice(s.base, k, k + 1, [id2, id, cur])
      && BaseView(r) == Splice(BaseView(s), k, k + 1, [below, made, rest])
      && r.disk == Splice(s.disk, p, p + 1, [id2, id, cur])
      && DiskView(r) == Splice(DiskView(s), p, p + 1, [below, made, rest])
  {
    hide *;
    UpdateViews(s, k, rest);
    var cur, p := s.base[k], IndexOf(s.disk, s.base[k]);
    var s1 := s.(data := s.data[cur := rest]);
    var s2 := AddData(s1, id, made, p);
    AddedData(s1, id, made, p);
    InsertSplices(BaseView(s), k, rest, made, below);
    CreateAdjoins(s, k, made, rest, id, k);
    AddViews(s2, id2, below, p, k);
    SpliceMore(BaseView(s), k, made, rest, below);
    SpliceMore(DiskView(s), p, made, rest, below);
    SpliceMore(s.base, k, id, cur, id2);
    SpliceMore(s.disk, p, id, cur, id2);
  }

  lemma SpliceMore<T>(v: seq<T>, k: nat, y: T, x: T, z: T)
    requires k < |v|
    ensures InsertAt(Splice(v, k, k + 1, [y, x]), k, z) == Splice(v, k, k + 1, [z, y, x])
  {
  }

  /** The decision and the sizes of add_partition_to_map, in terms of what is left below and above. */
  lemma PlanIsCut(d: Dpme, name: string, ptype: PartType, b: u32, len: u32)
    requires d.start <= b && b + len <= End(d) < U32 && 0 < len && d.ptype == FreeType
    ensures var made := CreateData(name, ptype, b, len); var rest := Remainder(d, b, len);
      match ActionFor(d, b, len)
      case Replace => d.start == b && b + len == End(d) && Pieces(d, made) == DiskPieces(d, made) == [made]
      case Adjoin =>
        && DiskPieces(d, made) == [made, rest]
        && (d.start == b) != (b + len == End(d))
        && (d.start == b ==> Pieces(d, made) == [made, rest] && rest.start == b + len)
        && (d.start != b ==> Pieces(d, made) == [rest, made] && rest.start == d.start)
      case Split =>
        && d.start < b && b + len < End(d) && rest.start == b + len
        && Pieces(d, made) == DiskPieces(d, made) == [FreeData(d.start, Sub32(b, d.start)), made, rest]
  {
  }

  /** Base order takes the new entries exactly where the pieces belong. */
  lemma CutFits(v: seq<Dpme>, k: nat, rest: Dpme, made: Dpme, below: Dpme)
    requires Sound(v) && k < |v| && v[k].start <= made.start <= End(made) <= End(v[k])
    ensures rest.start == End(made) ==> Fits(v[k := rest], made.start, k)
    ensures rest.start == v[k].start < made.start ==> Fits(v[k := rest], made.start, k + 1)
    ensures rest.start == End(made) && below.start == v[k].start ==>
      Fits(InsertAt(v[k := rest], k, made), below.start, k)
  {
  }

  /**
   add_partition_to_map: in base order the free entry is exchanged for its pieces;
   in disk order too, with the pieces at the free entry's number.
   */
  lemma CreateEffect<Id>(s: State<Id>, name: string, ptype: PartType, b: u32, len: u32, ids: seq<Id>)
    requires Granted(s, b, len) && FreshIds(s, ids, Allocates(s, b, len))
    ensures CutFrom(s, Source(s, b, len), CreateData(name, ptype, b, len), ids, Create(s, name, ptype, b, len, ids))
  {
    hide Sound, Coherent, Accepts, Pieces, DiskPieces, Splice, AddData, Elements, Remainder, ActionFor, View, Fits;
    GrantedFits(s, b, len);
    var k := Source(s, b, len);
    var d := BaseView(s)[k];
    var made := CreateData(name, ptype, b, len);
    var rest := Remainder(d, b, len);
    var below := FreeData(d.start, Sub32(b, d.start));
    PlanIsCut(d, name, ptype, b, len);
    CutFits(BaseView(s), k, rest, made, below);
    match ActionFor(d, b, len)
    case Replace =>
      CreateReplaces(s, k, made);
    case Adjoin =>
      CreateAdjoins(s, k, made, rest, ids[0], if d.start == b then k else k + 1);
    case Split =>
      CreateSplits(s, k, made, rest, below, ids[0], ids[1]);
  }

  // ----- deleting

  function Freed(d: Dpme): Dpme {
    FreeData(d.start, d.blocks)
  }

  /** The first of the entries that deleting entry `k` merges. */
  function MergeLow(v: seq<Dpme>, k: nat): (lo: nat)
    requires k < |v|
    ensures lo == k || lo + 1 == k
  {
    if 0 < k && Mergeable(v[k - 1], Freed(v[k])) then k - 1 else k
  }

  /** The last of the entries that deleting entry `k` merges. */
  function MergeHigh(v: seq<Dpme>, k: nat): (hi: nat)
    requires k < |v|
    ensures (hi == k || hi == k + 1) && hi < |v|
  {
    if k + 1 < |v| && Mergeable(Freed(v[k]), v[k + 1]) then k + 1 else k
  }

  /** The one free entry that takes the place of entries lo..hi. */
  function Merged(v: seq<Dpme>, lo: nat, hi: nat): Dpme
    requires lo <= hi < |v| && v[lo].start <= End(v[hi]) < U32
  {
    FreeData(v[lo].start, End(v[hi]) - v[lo].start)
  }

  lemma MergedTiles(v: seq<Dpme>, k: nat)
    requires Sound(v) && k < |v|
    ensures var lo, hi := MergeLow(v, k), MergeHigh(v, k);
      && v[lo].start <= End(v[hi]) < U32
      && Tiles(v[lo..hi + 1], v[lo].start, End(v[hi]))
      && Tiles([Merged(v, lo, hi)], v[lo].start, End(v[hi]))
  {
    var lo, hi := MergeLow(v, k), MergeHigh(v, k);
    MergeTouches(v, k);
    hide Sound, MergeLow, MergeHigh;
    TilesAround(v, lo, k, hi);
  }

  lemma MergeTouches(v: seq<Dpme>, k: nat)
    requires Sound(v) && k < |v|
    ensures var lo, hi := MergeLow(v, k), MergeHigh(v, k);
      && 0 < v[lo].blocks && 0 < v[k].blocks && 0 < v[hi].blocks && End(v[hi]) < U32
      && (lo < k ==> End(v[lo]) == v[k].start) && (k < hi ==> End(v[k]) == v[hi].start)
  {
  }

  lemma TilesAround(v: seq<Dpme>, lo: nat, k: nat, hi: nat)
    requires lo <= k <= hi < |v| && k <= lo + 1 && hi <= k + 1
    requires 0 < v[lo].blocks && 0 < v[k].blocks && 0 < v[hi].blocks && End(v[hi]) < U32
    requires (lo < k ==> End(v[lo]) == v[k].start) && (k < hi ==> End(v[k]) == v[hi].start)
    ensures v[lo].start <= End(v[hi])
    ensures Tiles(v[lo..hi + 1], v[lo].start, End(v[hi])) && Tiles([Merged(v, lo, hi)], v[lo].start, End(v[hi]))
  {
    var w := v[lo..hi + 1];
    forall i | 0 <= i < |w| ensures 0 < w[i].blocks && (0 < i ==> End(w[i - 1]) == w[i].start) {
      assert w[i] == v[lo + i] && lo + i in {lo, k, hi};
      assert 0 < i ==> w[i - 1] == v[lo + i - 1];
    }
  }

  // The two halves of combine_entry at entry `k`, on the data of base order.

  predicate NextMerges(v: seq<Dpme>, k: nat)
    requires k < |v|
  {
    k + 1 < |v| && Mergeable(v[k], v[k + 1])
  }

  predicate PrevMerges(v: seq<Dpme>, k: nat)
    requires k < |v|
  {
    0 < k && Mergeable(v[k - 1], v[k])
  }

  function RemoveIf<T>(s: seq<T>, b: bool, k: int): (r: seq<T>)
    requires b ==> 0 <= k < |s|
  {
    if b then RemoveAt(s, k) else s
  }

  function AfterNext(v: seq<Dpme>, k: nat): seq<Dpme>
    requires k < |v|
  {
    RemoveIf(v[k := if NextMerges(v, k) then Merge(v[k], v[k + 1], v[k]) else v[k]], NextMerges(v, k), k + 1)
  }

  function AfterPrev(v: seq<Dpme>, k: nat): seq<Dpme>
    requires k < |v|
  {
    RemoveIf(v[k := if PrevMerges(v, k) then Merge(v[k - 1], v[k], v[k]) else v[k]], PrevMerges(v, k), k - 1)
  }

  lemma BaseIndex<Id>(s: State<Id>, k: nat)
    requires WF(s) && k < |s.base|
    ensures s.base[k] in Elements(s.base) && s.base[k] in s.data && IndexOf(s.base, s.base[k]) == k
  {
    IndexOfAt(s.base, k);
  }

  lemma DeletedDisk<Id>(s: State<Id>, id: Id)
    requires WF(s) && id in s.data
    ensures id in Elements(s.disk) && DeleteEntry(s, id).disk == Without(s.disk, id)
  {
  }

  lemma MergeNextEffect<Id>(s: State<Id>, k: nat)
    requires WF(s) && k < |s.base|
    ensures s.base[k] in s.data
    ensures var v := BaseView(s); var r := MergeNext(s, s.base[k]);
      && r.base == RemoveIf(s.base, NextMerges(v, k), k + 1)
      && BaseView(r) == AfterNext(v, k)
      && r.disk == (if NextMerges(v, k) &&
          s.base[k + 1] in Elements(s.disk) then Without(s.disk, s.base[k + 1]) else s.disk)
  {
    hide NoDup, Coherent, Elements, View, Mergeable, Merge, RemoveAt, DeleteEntry;
    var v := BaseView(s);
    BaseIndex(s, k);
    if NextMerges(v, k) {
      var m := Merge(v[k], v[k + 1], v[k]);
      UpdateViews(s, k, m);
      var s1 := s.(data := s.data[s.base[k] := m]);
      DeleteViews(s1, k + 1);
      DeletedDisk(s1, s.base[k + 1]);
      assert MergeNext(s, s.base[k]) == DeleteEntry(s1, s.base[k + 1]);
    }
  }

  lemma MergePrevEffect<Id>(s: State<Id>, k: nat)
    requires WF(s) && k < |s.base|
    ensures s.base[k] in s.data
    ensures var v := BaseView(s); var r := MergePrev(s, s.base[k]);
      && r.base == RemoveIf(s.base, PrevMerges(v, k), k - 1)
      && BaseView(r) == AfterPrev(v, k)
      && r.disk == (if PrevMerges(v, k) &&
          s.base[k - 1] in Elements(s.disk) then Without(s.disk, s.base[k - 1]) else s.disk)
  {
    var v := BaseView(s);
    IndexOfAt(s.base, k);
    hide NoDup, Coherent, Elements, View, Mergeable, Merge, RemoveAt;
    if PrevMerges(v, k) {
      var m := Merge(v[k - 1], v[k], v[k]);
      UpdateViews(s, k, m);
      DeleteViews(s.(data := s.data[s.base[k] := m]), k - 1);
    }
  }

  /** How updating an element twice and removing its neighbours amounts to a splice. */
  lemma RemoveSplices<T>(s: seq<T>, k: nat, x: T, next: bool, y: T, prev: bool)
    requires k < |s| && (next ==> k + 1 < |s|) && (prev ==> 0 < k)
    ensures var r := RemoveIf(s[k := x], next, k + 1);
      && k < |r| && r[k] == x && (0 < k ==> r[k - 1] == s[k - 1])
      && (x == y ==> r[k := y] == r)
      && RemoveIf(r[k := y], prev, k - 1) == Splice(s, if prev then k - 1 else k, if next then k + 2 else k + 1, [y])
    ensures x == s[k] ==> s[k := x] == s
  {
    var r := RemoveIf(s[k := x], next, k + 1);
    var rest := s[if next then k + 2 else k + 1..];
    assert r == s[..k] + [x] + rest;
    assert r[k := y] == s[..k] + [y] + rest;
    RemoveBefore(s, k, y, rest, prev);
  }

  lemma RemoveBefore<T>(s: seq<T>, k: nat, y: T, rest: seq<T>, prev: bool)
    requires k < |s| && (prev ==> 0 < k)
    ensures RemoveIf(s[..k] + [y] + rest, prev, k - 1) == s[..if prev then k - 1 else k] + [y] + rest
  {
  }

  /** Freeing entry `k` of a sound map and combining it merges lo..hi into one. */
  lemma CombineSteps(v: seq<Dpme>, k: nat)
    requires Sound(v) && k < |v|
    ensures var lo, hi := MergeLow(v, k), MergeHigh(v, k); var v1 := v[k := Freed(v[k])];
      && v[lo].start <= End(v[hi]) < U32
      && NextMerges(v1, k) == (k < hi) && k < |AfterNext(v1, k)| && PrevMerges(AfterNext(v1, k), k) == (lo < k)
      && AfterPrev(AfterNext(v1, k), k) == Splice(v, lo, hi + 1, [Merged(v, lo, hi)])
  {
    hide RemoveIf, Splice;
    var v1 := v[k := Freed(v[k])];
    var lo, hi := MergeLow(v, k), MergeHigh(v, k);
    var x := if k < hi then Merge(Freed(v[k]), v[hi], Freed(v[k])) else Freed(v[k]);
    var y := Merged(v, lo, hi);
    assert v1[k := x] == v[k := x];
    RemoveSplices(v, k, x, k < hi, y, lo < k);
  }

  /**
   delete_partition_from_map: the entry and its free, contiguous neighbours become one
   free entry over the same blocks, carried by the entry's own node.
   */
  lemma DeleteEffect<Id>(s: State<Id>, k: nat)
    requires WF(s) && Sound(BaseView(s)) && k < |s.base|
    requires s.base[k] in s.data && Deletable(s, s.base[k])
    ensures var v := BaseView(s); var lo, hi := MergeLow(v, k), MergeHigh(v, k);
      var r := Delete(s, s.base[k]);
      && v[lo].start <= End(v[hi]) < U32
      && r.base == Splice(s.base, lo, hi + 1, [s.base[k]])
      && BaseView(r) == Splice(v, lo, hi + 1, [Merged(v, lo, hi)])
  {
    hide Sound, Coherent, NoDup, View, Splice, RemoveIf, AfterNext, AfterPrev, NextMerges, PrevMerges, MergeNext,
        MergePrev, MergeLow, MergeHigh, Elements, IndexOf, Merged, ContainsDriver, Delete;
    var id, v := s.base[k], BaseView(s);
    var s1 := s.(data := s.data[id := Freed(v[k])]);
    UpdateViews(s, k, Freed(v[k]));
    DeleteCombines(s, k);
    CombineSteps(v, k);
    RemoveSplices(s.base, k, id, k < MergeHigh(v, k), id, MergeLow(v, k) < k);
    MergeNextEffect(s1, k);
    MergePrevEffect(MergeNext(s1, id), k);
  }

  /** A delete that is carried out frees the entry and then merges on either side. */
  lemma DeleteCombines<Id>(s: State<Id>, k: nat)
    requires WF(s) && k < |s.base| && s.base[k] in s.data && Deletable(s, s.base[k])
    ensures var id := s.base[k]; var s1 := s.(data := s.data[id := Freed(BaseView(s)[k])]);
      WF(s1) && Delete(s, id) == MergePrev(MergeNext(s1, id), id)
  {
    UpdateViews(s, k, Freed(BaseView(s)[k]));
    hide Coherent, NoDup, View, Elements, MergeNext, MergePrev;
  }

  /** In disk order the merged neighbours just disappear. */
  lemma DeleteDisk<Id>(s: State<Id>, k: nat)
    requires WF(s) && Sound(BaseView(s)) && k < |s.base|
    requires s.base[k] in s.data && Deletable(s, s.base[k])
    ensures var v := BaseView(s); var lo, hi := MergeLow(v, k), MergeHigh(v, k);
      && s.base[lo] in Elements(s.disk) && s.base[hi] in Elements(s.disk)
      && var d1 := if k < hi then Without(s.disk, s.base[hi]) else s.disk;
      && (lo < k ==> s.base[lo] in Elements(d1))
      && Delete(s, s.base[k]).disk == if lo < k then Without(d1, s.base[lo]) else d1
  {
    var lo, hi := MergeLow(BaseView(s), k), MergeHigh(BaseView(s), k);
    ElementAt(s.base, lo);
    ElementAt(s.base, hi);
    hide Sound, Coherent, NoDup, View, Splice, RemoveIf, AfterNext, AfterPrev, NextMerges, PrevMerges, MergeNext,
        MergePrev, MergeLow, MergeHigh, Elements;
    var id, v := s.base[k], BaseView(s);
    var s1 := s.(data := s.data[id := Freed(v[k])]);
    UpdateViews(s, k, Freed(v[k]));
    CombineSteps(v, k);
    RemoveSplices(s.base, k, id, k < MergeHigh(v, k), id, MergeLow(v, k) < k);
    MergeNextEffect(s1, k);
    MergePrevEffect(MergeNext(s1, id), k);
  }
}
