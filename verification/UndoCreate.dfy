/** Deleting a partition right after creating it. */
module UndoCreate {
  import opened Words
  import opened Seqs
  import opened MapModel
  import opened Geometry
  import opened Allocation
  import opened MapTheorems

  /** What the user sees of an entry: where it is and whether it is free. */
  datatype Shape = Shape(start: int, blocks: int, free: bool)

  function ShapeOf(d: Dpme): Shape {
    Shape(d.start, d.blocks, d.ptype == FreeType)
  }

  function Shapes(v: seq<Dpme>): (r: seq<Shape>)
    ensures |r| == |v| && forall i :: 0 <= i < |v| ==> r[i] == ShapeOf(v[i])
  {
    if v == [] then [] else Shapes(v[..|v| - 1]) + [ShapeOf(v[|v| - 1])]
  }

  /** The entry that carries the new partition. */
  function NewId<Id>(cur: Id, ids: seq<Id>): Id {
    if ids == [] then cur else ids[0]
  }

  /**
   The new partition does not touch a free neighbour of the free entry it was cut from:
   at either end of that entry where the partition lies, the next entry cannot be merged.
   */
  predicate Apart(v: seq<Dpme>, k: nat, b: u32, len: u32)
    requires k < |v|
  {
    && (v[k].start == b && 0 < k ==> !Mergeable(v[k - 1], v[k]))
    && (End(v[k]) == b + len && k + 1 < |v| ==> !Mergeable(v[k], v[k + 1]))
  }

  /** Which entries a delete merges after the partition `made` was cut from entry `k`. */
  lemma UndoMerges(v: seq<Dpme>, k: nat, made: Dpme)
    requires Sound(v) && k < |v| && v[k].ptype == FreeType && 0 < made.blocks
    requires v[k].start <= made.start && End(made) <= End(v[k])
    ensures var w := Splice(v, k, k + 1, Pieces(v[k], made));
      var below, above := if v[k].start < made.start then 1 else 0, if End(made) < End(v[k]) then 1 else 0;
      var n := k + below;
      && |Pieces(v[k], made)| == 1 + below + above
      && |w| == |v| + below + above && w[n] == made
      && (0 < below ==> MergeLow(w, n) == k)
      && (0 < above ==> MergeHigh(w, n) == n + 1)
      && (0 == below ==> MergeLow(w, n) == if 0 < k && Mergeable(v[k - 1], v[k]) then k - 1 else k)
      && (0 == above ==> MergeHigh(w, n) == if k + 1 < |v| && Mergeable(v[k], v[k + 1]) then n + 1 else n)
      && (forall i :: 0 <= i < k ==> w[i] == v[i])
      && (forall i :: k < i < |v| ==> w[i + below + above] == v[i])
      && (0 < below ==> w[k].start == v[k].start)
      && (0 < above ==> End(w[n + 1]) == End(v[k]))
  {
    var w := Splice(v, k, k + 1, Pieces(v[k], made));
    var p := Pieces(v[k], made);
    assert forall i :: 0 <= i < |p| ==> w[k + i] == p[i];
    assert 0 < k ==> w[k - 1] == v[k - 1];
    assert k + 1 < |v| ==> w[k + |p|] == v[k + 1];
  }

  lemma WithoutMiddle<Id>(a: seq<Id>, x: Id, b: seq<Id>)
    requires NoDup(a + [x] + b)
    ensures x in Elements(a + [x] + b) && Without(a + [x] + b, x) == a + b
  {
    var s := a + [x] + b;
    assert s[|a|] == x;
    IndexOfAt(s, |a|);
  }

  lemma NoDupMiddle<Id>(a: seq<Id>, x: Id, b: seq<Id>)
    requires NoDup(a + [x] + b)
    ensures NoDup(a + b)
  {
    RemoveNoDup(a + [x] + b, |a|);
    assert RemoveAt(a + [x] + b, |a|) == a + b;
  }

  /** In base order the new partition is at `n`, and its node is the one NewId names. */
  lemma NewIdPlace<Id>(s: State<Id>, k: nat, made: Dpme, ids: seq<Id>, r: State<Id>)
    requires WF(s) && WF(r) && k < |s.base| && CutFrom(s, k, made, ids, r)
    ensures var below, above := if BaseView(s)[k].start < made.start then 1 else 0,
        if End(made) < End(BaseView(s)[k]) then 1 else 0;
      var n := k + below;
      && |r.base| == |s.base| + below + above
      && r.base[n] == NewId(s.base[k], ids)
      && (0 < below ==> r.base[k] == if above == 0 then s.base[k] else ids[1])
      && (0 < above ==> r.base[n + 1] == s.base[k])
      && |ids| == below + above
  {
    var d := BaseView(s)[k];
    var p := PieceIds(d, made, s.base[k], ids);
    hide Coherent, Pieces, DiskPieces;
    assert forall i :: 0 <= i < |p| ==> r.base[k + i] == p[i];
  }

  /** Deleting the new partition leaves one node, the new partition's, where the free entry's was. */
  lemma UndoDisk<Id>(disk: seq<Id>, p: nat, ids: seq<Id>)
    requires p < |disk| && |ids| <= 2
    requires NoDup(Splice(disk, p, p + 1, DiskPieceIds(disk[p], ids)))
    ensures var d1 := Splice(disk, p, p + 1, DiskPieceIds(disk[p], ids));
      var d2 := disk[p := NewId(disk[p], ids)];
      && (|ids| == 0 ==> d1 == d2)
      && (|ids| == 1 ==> disk[p] in Elements(d1) && Without(d1, disk[p]) == d2)
      && (|ids| == 2 ==> disk[p] in Elements(d1) && ids[1] in Elements(Without(d1, disk[p]))
                         && Without(Without(d1, disk[p]), ids[1]) == d2)
  {
    hide NoDup, Elements, Without;
    var lo, hi, cur := disk[..p], disk[p + 1..], disk[p];
    if |ids| == 1 {
      assert Splice(disk, p, p + 1, DiskPieceIds(cur, ids)) == (lo + [ids[0]]) + [cur] + hi;
      WithoutMiddle(lo + [ids[0]], cur, hi);
    } else if |ids| == 2 {
      assert Splice(disk, p, p + 1, DiskPieceIds(cur, ids)) == (lo + [ids[1], ids[0]]) + [cur] + hi;
      WithoutMiddle(lo + [ids[1], ids[0]], cur, hi);
      NoDupMiddle(lo + [ids[1], ids[0]], cur, hi);
      assert (lo + [ids[1], ids[0]]) + hi == lo + [ids[1]] + ([ids[0]] + hi);
      WithoutMiddle(lo, ids[1], [ids[0]] + hi);
    }
  }

  /** If base order changes at one place only, and that node replaces the other on disk, so does its data. */
  lemma DiskFollowsBase<Id>(s: State<Id>, r: State<Id>, k: nat, id: Id, m: Dpme)
    requires WF(s) && WF(r) && k < |s.base|
    requires r.base == s.base[k := id] && BaseView(r) == BaseView(s)[k := m]
    requires s.base[k] in Elements(s.disk) && r.disk == s.disk[IndexOf(s.disk, s.base[k]) := id]
    ensures DiskView(r) == DiskView(s)[IndexOf(s.disk, s.base[k]) := m]
  {
    var p := IndexOf(s.disk, s.base[k]);
    assert r.base[k] == id;
    forall i | 0 <= i < |s.disk| ensures DiskView(r)[i] == DiskView(s)[p := m][i] {
      if i != p {
        ElementAt(s.disk, i);
        var j := IndexOf(s.base, s.disk[i]);
        assert j != k;
        assert r.base[j] == s.base[j] && BaseView(r)[j] == BaseView(s)[j];
      }
    }
  }

  /** Cutting `made` out of entry `k` and merging it back: what base order holds then. */
  lemma UndoBase<T>(v: seq<T>, k: nat, p: seq<T>, lo: nat, hi: nat, m: T)
    requires k < |v| && lo <= hi < |Splice(v, k, k + 1, p)| && lo <= k && k + |p| <= hi + 1
    ensures Splice(Splice(v, k, k + 1, p), lo, hi + 1, [m]) == Splice(v, lo, hi + 2 - |p|, [m])
  {
  }

  /** The state after creating a partition and deleting it again. */
  ghost predicate Undone<Id>(s: State<Id>, name: string, ptype: PartType, b: u32, len: u32, ids: seq<Id>,
      r: State<Id>) {
    && Granted(s, b, len) && FreshIds(s, ids, Allocates(s, b, len))
    && var s1 := Create(s, name, ptype, b, len, ids);
    && var id := NewId(s.base[Source(s, b, len)], ids);
    && id in s1.data && Deletable(s1, id) && r == Delete(s1, id)
  }

  /** The first and the last entry that go into one when the new partition is deleted. */
  function UndoLow(v: seq<Dpme>, k: nat, b: u32): (lo: nat)
    requires k < |v|
    ensures lo <= k
  {
    if v[k].start == b && 0 < k && Mergeable(v[k - 1], v[k]) then k - 1 else k
  }

  function UndoHigh(v: seq<Dpme>, k: nat, b: u32, len: u32): (hi: nat)
    requires k < |v|
    ensures k <= hi < |v|
  {
    if End(v[k]) == b + len && k + 1 < |v| && Mergeable(v[k], v[k + 1]) then k + 1 else k
  }

  lemma UndoEffect<Id>(s: State<Id>, name: string, ptype: PartType, b: u32, len: u32, ids: seq<Id>, r: State<Id>)
    requires Undone(s, name, ptype, b, len, ids, r)
    ensures var v, k := BaseView(s), Source(s, b, len);
      var lo, hi := UndoLow(v, k, b), UndoHigh(v, k, b, len);
      && r.base == Splice(s.base, lo, hi + 1, [NewId(s.base[k], ids)])
      && v[lo].start <= End(v[hi]) < U32
      && BaseView(r) == Splice(v, lo, hi + 1, [Merged(v, lo, hi)])
  {
    hide Sound, Coherent, Elements, NoDup, View, Splice, Pieces, PieceIds, DiskPieces, Create, Delete, Accepts,
        MergeLow, MergeHigh, Conserves, Mergeable, IndexOf, Deletable, ContainsDriver, Allocates, NewId, DiskPieceIds;
    var s1 := Create(s, name, ptype, b, len, ids);
    var v, k := BaseView(s), Source(s, b, len);
    var made := CreateData(name, ptype, b, len);
    GrantedFits(s, b, len);
    CreateEffect(s, name, ptype, b, len, ids);
    CreateConserves(s, name, ptype, b, len, ids);
    NewIdPlace(s, k, made, ids, s1);
    UndoMerges(v, k, made);
    var n := k + if v[k].start < b then 1 else 0;
    DeleteEffect(s1, n);
    var lo, hi := MergeLow(BaseView(s1), n), MergeHigh(BaseView(s1), n);
    UndoBase(v, k, Pieces(v[k], made), lo, hi, Merged(BaseView(s1), lo, hi));
    UndoBase(s.base, k, PieceIds(v[k], made, s.base[k], ids), lo, hi, s1.base[n]);
  }

  lemma UndoDiskEffect<Id>(s: State<Id>, name: string, ptype: PartType, b: u32, len: u32, ids: seq<Id>, r: State<Id>)
    requires Undone(s, name, ptype, b, len, ids, r)
    requires Apart(BaseView(s), Source(s, b, len), b, len)
    ensures var cur := s.base[Source(s, b, len)];
      cur in Elements(s.disk) && r.disk == s.disk[IndexOf(s.disk, cur) := NewId(cur, ids)]
  {
    hide Sound, Coherent, Elements, NoDup, View, Splice, Pieces, PieceIds, DiskPieces, DiskPieceIds, Create,
        Delete, Accepts, MergeLow, MergeHigh, Conserves,
      Mergeable, ActionFor, Without, ContainsDriver, IndexOf;
    var s1 := Create(s, name, ptype, b, len, ids);
    var v, k := BaseView(s), Source(s, b, len);
    var made := CreateData(name, ptype, b, len);
    GrantedFits(s, b, len);
    CreateEffect(s, name, ptype, b, len, ids);
    CreateConserves(s, name, ptype, b, len, ids);
    NewIdPlace(s, k, made, ids, s1);
    UndoMerges(v, k, made);
    DeleteDisk(s1, k + if v[k].start < b then 1 else 0);
    assert NoDup(s1.disk) by { NoDupDisk(s1); }
    UndoDisk(s.disk, IndexOf(s.disk, s.base[k]), ids);
  }

  lemma NoDupDisk<Id>(s: State<Id>)
    requires WF(s)
    ensures NoDup(s.disk)
  {
  }

  /** The free entry is back where it was, in both orders, when nothing else was merged. */
  lemma UndoRestores<Id>(s: State<Id>, name: string, ptype: PartType, b: u32, len: u32, ids: seq<Id>, r: State<Id>)
    requires Undone(s, name, ptype, b, len, ids, r)
    requires Apart(BaseView(s), Source(s, b, len), b, len)
    ensures var k := Source(s, b, len); var d := Freed(BaseView(s)[k]);
      && s.base[k] in Elements(s.disk)
      && BaseView(r) == BaseView(s)[k := d]
      && DiskView(r) == DiskView(s)[IndexOf(s.disk, s.base[k]) := d]
  {
    hide Coherent, Elements, NoDup, View, Create, Delete, Accepts, Sound, Conserves, Splice, Mergeable, Deletable,
        NewId, IndexOf, Allocates;
    var k := Source(s, b, len);
    var d := Freed(BaseView(s)[k]);
    var id := NewId(s.base[k], ids);
    UndoEffect(s, name, ptype, b, len, ids, r);
    UndoDiskEffect(s, name, ptype, b, len, ids, r);
    InsertSplices(BaseView(s), k, d, d, d);
    InsertSplices(s.base, k, id, id, id);
    DiskFollowsBase(s, r, k, NewId(s.base[k], ids), d);
  }

  /**
   Creating a partition and deleting it again gives back every extent, its free or used
   status and its position in both orders, exactly when the partition lay apart from the
   free neighbours of the free entry it came from.
   */
  lemma UndoCreateIff<Id>(s: State<Id>, name: string, ptype: PartType, b: u32, len: u32, ids: seq<Id>, r: State<Id>)
    requires Undone(s, name, ptype, b, len, ids, r)
    ensures Shapes(BaseView(r)) == Shapes(BaseView(s)) && Shapes(DiskView(r)) == Shapes(DiskView(s))
       <==> Apart(BaseView(s), Source(s, b, len), b, len)
  {
    hide Coherent, Elements, NoDup, View, Create, Delete, Accepts, Sound, Deletable;
    GrantedFits(s, b, len);
    var v, k := BaseView(s), Source(s, b, len);
    if Apart(v, k, b, len) {
      UndoRestores(s, name, ptype, b, len, ids, r);
      UndoneFree(s, name, ptype, b, len, ids, r);
      SameShape(v, k, Freed(v[k]));
      SameShape(DiskView(s), IndexOf(s.disk, s.base[k]), Freed(v[k]));
    } else {
      UndoEffect(s, name, ptype, b, len, ids, r);
      assert |BaseView(r)| < |v|;
    }
  }

  lemma SameShape(v: seq<Dpme>, k: nat, d: Dpme)
    requires k < |v| && ShapeOf(d) == ShapeOf(v[k])
    ensures Shapes(v[k := d]) == Shapes(v)
  {
  }

  /** The disk order shows the same free entry at its number. */
  lemma UndoneFree<Id>(s: State<Id>, name: string, ptype: PartType, b: u32, len: u32, ids: seq<Id>, r: State<Id>)
    requires Undone(s, name, ptype, b, len, ids, r)
    ensures var k := Source(s, b, len);
      s.base[k] in Elements(s.disk) && DiskView(s)[IndexOf(s.disk, s.base[k])] == BaseView(s)[k]
  {
    GrantedFits(s, b, len);
  }

  /** On a coalesced map every partition lies apart. */
  lemma CoalescedApart(v: seq<Dpme>, k: nat, b: u32, len: u32)
    requires Coalesced(v) && k < |v|
    ensures Apart(v, k, b, len)
  {
  }

  /** On a map with two free neighbours, which only opening a disk can bring in, deleting may merge more
      than was cut. */
  lemma UndoCanMerge()
    ensures exists s: State<nat>, r: State<nat> ::
      Undone(s, "root", OtherType("Apple_UNIX_SVR2"), 1, 9, [], r) && Shapes(BaseView(r)) != Shapes(BaseView(s))
  {
    var low, high := FreeData(1, 9), FreeData(10, 90);
    var s: State<nat> := State([0, 1], [0, 1], map[0 := low, 1 := high], -1, 100, []);
    var ptype := OtherType("Apple_UNIX_SVR2");
    assert Elements(s.disk) == {0, 1} by { ElementsAre(s.disk); }
    assert BaseView(s) == [low, high];
    ExampleUndone(s, ptype);
    MergedAway(s, ptype, Delete(Create(s, "root", ptype, 1, 9, []), 0));
  }

  /** The request takes the whole first entry of such a map, which can then be deleted. */
  lemma ExampleUndone(s: State<nat>, ptype: PartType)
    requires WF(s) && s.base == [0, 1] && |s.disk| == 2 && s.maximum == -1 && s.media == 100 && s.drivers == []
    requires BaseView(s) == [FreeData(1, 9), FreeData(10, 90)] && ptype.OtherType?
    ensures Granted(s, 1, 9) && Source(s, 1, 9) == 0 && FreshIds(s, [], Allocates(s, 1, 9))
    ensures 0 in Create(s, "root", ptype, 1, 9, []).data
    ensures Undone(s, "root", ptype, 1, 9, [], Delete(Create(s, "root", ptype, 1, 9, []), 0))
  {
    BaseIndex(s, 0);
    hide Coherent, NoDup, Elements, View, Delete;
    HolderUnique(BaseView(s), 1, 9, 0);
    var s1 := Create(s, "root", ptype, 1, 9, []);
    assert s1.data[0] == CreateData("root", ptype, 1, 9) && s1.drivers == [];
  }

  lemma MergedAway(s: State<nat>, ptype: PartType, r: State<nat>)
    requires Undone(s, "root", ptype, 1, 9, [], r)
    requires BaseView(s) == [FreeData(1, 9), FreeData(10, 90)] && Source(s, 1, 9) == 0
    ensures Shapes(BaseView(r)) != Shapes(BaseView(s))
  {
    hide Coherent, Elements, NoDup, View, Create, Delete, Accepts, Sound, Deletable, Undone;
    UndoneGranted(s, "root", ptype, 1, 9, [], r);
    UndoEffect(s, "root", ptype, 1, 9, [], r);
    assert |BaseView(r)| < |BaseView(s)|;
  }

  lemma UndoneGranted<Id>(s: State<Id>, name: string, ptype: PartType, b: u32, len: u32, ids: seq<Id>, r: State<Id>)
    requires Undone(s, name, ptype, b, len, ids, r)
    ensures Granted(s, b, len) && WF(r)
  {
  }
}
