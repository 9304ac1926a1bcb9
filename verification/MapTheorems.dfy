/**
 What the editing commands of partition_map.c guarantee about the blocks of a
 disk: conservation, coalescing, undoing a create, reordering and resizing.
 */
module MapTheorems {
  import opened Words
  import opened Seqs
  import opened MapModel
  import opened Geometry
  import opened Allocation

  /** The partitions in use, in base order. */
  function Used(v: seq<Dpme>): seq<Dpme> {
    if v == [] then []
    else if v[|v| - 1].ptype == FreeType then Used(v[..|v| - 1])
    else Used(v[..|v| - 1]) + [v[|v| - 1]]
  }

  lemma {:induction false} UsedConcat(v: seq<Dpme>, w: seq<Dpme>)
    ensures Used(v + w) == Used(v) + Used(w)
  {
    if w == [] {
      assert v + w == v;
    } else {
      assert (v + w)[..|v + w| - 1] == v + w[..|w| - 1];
      UsedConcat(v, w[..|w| - 1]);
    }
  }

  lemma UsedSplice(v: seq<Dpme>, i: nat, j: nat, p: seq<Dpme>)
    requires i <= j <= |v|
    ensures Used(Splice(v, i, j, p)) == Used(v[..i]) + Used(p) + Used(v[j..])
    ensures Used(v) == Used(v[..i]) + Used(v[i..j]) + Used(v[j..])
  {
    UsedConcat(v[..i] + p, v[j..]);
    UsedConcat(v[..i], p);
    assert v == v[..i] + v[i..j] + v[j..];
    UsedConcat(v[..i] + v[i..j], v[j..]);
    UsedConcat(v[..i], v[i..j]);
  }

  /** Every entry's logical extent is its whole physical extent. */
  ghost predicate Whole(v: seq<Dpme>) {
    forall i :: 0 <= i < |v| ==> v[i].lstart == 0 && v[i].lblocks == v[i].blocks
  }

  /** `w` has the blocks of `v`, arranged as soundly. */
  ghost predicate Conserves(v: seq<Dpme>, w: seq<Dpme>) {
    && Sound(w) && SameBlocks(v, w)
    && (Whole(v) ==> Whole(w))
    && (forall lo, hi :: Tiles(v, lo, hi) ==> Tiles(w, lo, hi))
  }

  lemma SpliceConserves(v: seq<Dpme>, i: nat, j: nat, p: seq<Dpme>, a: int, b: int)
    requires Sound(v) && i < j <= |v| && Tiles(v[i..j], a, b) && Tiles(p, a, b)
    requires Whole(v[i..j]) ==> Whole(p)
    ensures Conserves(v, Splice(v, i, j, p))
  {
    SpliceKeeps(v, i, j, p, a, b);
    forall lo, hi | Tiles(v, lo, hi) ensures Tiles(Splice(v, i, j, p), lo, hi) {
      SpliceTiles(v, i, j, p, a, b, lo, hi);
    }
    if Whole(v) {
      assert Whole(p);
      assert Whole(Splice(v, i, j, p));
    }
  }

  // ----- creating

  lemma CutConserves(v: seq<Dpme>, k: nat, made: Dpme)
    requires Sound(v) && k < |v| && v[k].start <= made.start && End(made) <= End(v[k]) && 0 < made.blocks
    requires made.lstart == 0 && made.lblocks == made.blocks
    ensures Conserves(v, Splice(v, k, k + 1, Pieces(v[k], made)))
  {
    PiecesTile(v[k], made);
    assert Whole(v[k..k + 1]) ==> Whole([v[k]]);
    assert v[k..k + 1] == [v[k]];
    SpliceConserves(v, k, k + 1, Pieces(v[k], made), v[k].start, End(v[k]));
  }

  /** Cutting a used partition out of a free entry leaves no two free neighbours to merge. */
  lemma CutCoalesced(v: seq<Dpme>, k: nat, made: Dpme)
    requires Sound(v) && Coalesced(v) && k < |v| && v[k].ptype == FreeType && made.ptype != FreeType
    requires v[k].start <= made.start && End(made) <= End(v[k]) && 0 < made.blocks
    ensures Coalesced(Splice(v, k, k + 1, Pieces(v[k], made)))
  {
    var p := Pieces(v[k], made);
    var r := Splice(v, k, k + 1, p);
    forall i | 0 < i < |r| ensures !Mergeable(r[i - 1], r[i]) {
      assert r[i] == if i < k then v[i] else if i < k + |p| then p[i - k] else v[i - |p| + 1];
      assert r[i - 1] == if i - 1 < k then v[i - 1] else if i - 1 < k + |p| then p[i - 1 - k] else v[i - |p|];
      if 0 < i - k < |p| {
        assert p[i - k] == made || p[i - k - 1] == made;
      } else if i == k {
        assert !Mergeable(v[k - 1], v[k]);
      } else if i == k + |p| {
        assert !Mergeable(v[k], v[k + 1]);
      } else if i < k {
        assert !Mergeable(v[i - 1], v[i]);
      } else {
        assert !Mergeable(v[i - |p|], v[i - |p| + 1]);
      }
    }
  }

  /** A granted create only rearranges the blocks of the map. */
  lemma CreateConserves<Id>(s: State<Id>, name: string, ptype: PartType, b: u32, len: u32, ids: seq<Id>)
    requires Granted(s, b, len) && FreshIds(s, ids, Allocates(s, b, len))
    ensures Sound(BaseView(Create(s, name, ptype, b, len, ids)))
    ensures Conserves(BaseView(s), BaseView(Create(s, name, ptype, b, len, ids)))
  {
    hide Sound, Coherent, Elements, NoDup, View, Splice, Pieces, Create, Accepts;
    CreateEffect(s, name, ptype, b, len, ids);
    GrantedFits(s, b, len);
    CutConserves(BaseView(s), Source(s, b, len), CreateData(name, ptype, b, len));
  }

  /**
   A granted create keeps the map sound, its blocks and its coalescing, and adds exactly
   the requested partition to the partitions in use.
   */
  lemma CreateKeeps<Id>(s: State<Id>, name: string, ptype: PartType, b: u32, len: u32, ids: seq<Id>)
    requires Granted(s, b, len) && FreshIds(s, ids, Allocates(s, b, len)) && ptype != FreeType
    ensures var v, w := BaseView(s), BaseView(Create(s, name, ptype, b, len, ids));
      && Conserves(v, w)
      && (Coalesced(v) ==> Coalesced(w))
      && multiset(Used(w)) == multiset(Used(v)) + multiset{CreateData(name, ptype, b, len)}
  {
    hide Sound, Coherent, Elements, NoDup, View, Splice, Pieces, Create, Conserves, Coalesced, Used, Accepts;
    var v, k := BaseView(s), Source(s, b, len);
    var made := CreateData(name, ptype, b, len);
    CreateEffect(s, name, ptype, b, len, ids);
    GrantedFits(s, b, len);
    CutConserves(v, k, made);
    if Coalesced(v) {
      CutCoalesced(v, k, made);
    }
    UsedSplice(v, k, k + 1, Pieces(v[k], made));
    UsedPieces(v[k], made);
    assert v[k..k + 1] == [v[k]];
  }

  lemma UsedPieces(d: Dpme, made: Dpme)
    requires d.start <= made.start && End(made) <= End(d) < U32
    requires d.ptype == FreeType && made.ptype != FreeType
    ensures Used(Pieces(d, made)) == [made] && Used([d]) == []
  {
    assert [d][..0] == [];
    var lower := if d.start == made.start then [] else [Pieces(d, made)[0]];
    var upper := Pieces(d, made)[|lower| + 1..];
    assert Pieces(d, made) == lower + [made] + upper;
    UsedConcat(lower + [made], upper);
    UsedConcat(lower, [made]);
    assert forall x: Dpme :: Used([x]) == if x.ptype == FreeType then [] else [x];
  }

  /**
   A request that is carried out leaves the map sound exactly when it asks for at least
   one block and does not run past the last 32-bit block number.
   */
  lemma CreateSoundIff<Id>(s: State<Id>, name: string, ptype: PartType, b: u32, len: u32, ids: seq<Id>)
    requires WF(s) && Sound(BaseView(s)) && Accepts(s, b, len) && FreshIds(s, ids, Allocates(s, b, len))
    ensures Sound(BaseView(Create(s, name, ptype, b, len, ids))) <==> 0 < len && b + len < U32
  {
    var made := CreateData(name, ptype, b, len);
    if 0 < len && b + len < U32 {
      CreateEffect(s, name, ptype, b, len, ids);
      GrantedFits(s, b, len);
      CutConserves(BaseView(s), Source(s, b, len), made);
    } else {
      var i := MadeAppears(s, name, ptype, b, len, ids);
      hide Create, WF;
    }
  }

  /** Requests of both kinds that are accepted: no blocks at all, and an end that wraps around. */
  lemma UnsoundRequests()
    ensures exists s: State<nat> ::
      WF(s) && Sound(BaseView(s)) && Accepts(s, 5, 0) && Accepts(s, 5, 0xffff_fffd) && U32 <= 5 + 0xffff_fffd
  {
    var d := FreeData(1, 9);
    var s: State<nat> := State([0], [0], map[0 := d], -1, 10, []);
    assert Elements(s.disk) == {0} by { ElementsAre(s.disk); }
    assert BaseView(s) == [d];
    HolderUnique([d], 5, 0, 0);
    HolderUnique([d], 5, 0xffff_fffd, 0);
  }

  lemma MadeAppears<Id>(s: State<Id>, name: string, ptype: PartType, b: u32, len: u32, ids: seq<Id>) returns (i: nat)
    requires WF(s) && Accepts(s, b, len) && FreshIds(s, ids, Allocates(s, b, len))
    ensures var w := BaseView(Create(s, name, ptype, b, len, ids)); i < |w| && w[i] == CreateData(name, ptype, b, len)
  {
    hide Coherent, NoDup, Elements, View;
    var k := Holder(BaseView(s), b, len);
    BaseIndex(s, k);
    var x := if |ids| == 0 then s.base[k] else ids[0];
    TwoNames(ids);
    var r := Create(s, name, ptype, b, len, ids);
    assert r.data[x] == CreateData(name, ptype, b, len);
    WFIndex(r, x);
    i := IndexOf(r.base, x);
  }

  lemma TwoNames<Id>(ids: seq<Id>)
    requires NoDup(ids)
    ensures |ids| == 2 ==> ids[0] != ids[1]
  {
  }

  lemma WFIndex<Id>(s: State<Id>, x: Id)
    requires WF(s) && x in s.data
    ensures x in Elements(s.base) && BaseView(s)[IndexOf(s.base, x)] == s.data[x]
  {
  }

  // ----- deleting

  /** What is merged has no free neighbour left. */
  lemma MergedEnds(v: seq<Dpme>, k: nat)
    requires Sound(v) && Coalesced(v) && k < |v|
    ensures var lo, hi := MergeLow(v, k), MergeHigh(v, k);
      && v[lo].start <= End(v[hi]) < U32
      && (0 < lo ==> !Mergeable(v[lo - 1], Merged(v, lo, hi)))
      && (hi + 1 < |v| ==> !Mergeable(Merged(v, lo, hi), v[hi + 1]))
  {
    var lo, hi := MergeLow(v, k), MergeHigh(v, k);
    MergeTouches(v, k);
    assert 0 < lo ==> !Mergeable(v[lo - 1], v[lo]);
    assert hi + 1 < |v| ==> !Mergeable(v[hi], v[hi + 1]);
  }

  lemma MergeCoalesced(v: seq<Dpme>, k: nat)
    requires Sound(v) && Coalesced(v) && k < |v|
    ensures var lo, hi := MergeLow(v, k), MergeHigh(v, k);
      && v[lo].start <= End(v[hi]) < U32
      && Coalesced(Splice(v, lo, hi + 1, [Merged(v, lo, hi)]))
  {
    MergedEnds(v, k);
    hide Mergeable, MergeLow, MergeHigh, Sound, Merged, Coalesced;
    var lo, hi := MergeLow(v, k), MergeHigh(v, k);
    CoalescedAround(v, lo, hi, Merged(v, lo, hi));
  }

  lemma CoalescedAround(v: seq<Dpme>, lo: nat, hi: nat, m: Dpme)
    requires lo <= hi < |v| && Coalesced(v)
    requires (0 < lo ==> !Mergeable(v[lo - 1], m)) && (hi + 1 < |v| ==> !Mergeable(m, v[hi + 1]))
    ensures Coalesced(v[..lo] + [m] + v[hi + 1..])
  {
    hide Mergeable;
    var r := v[..lo] + [m] + v[hi + 1..];
    forall i | 0 < i < |r| ensures !Mergeable(r[i - 1], r[i]) {
      if i < lo {
        assert r[i - 1] == v[i - 1] && r[i] == v[i] && !Mergeable(v[i - 1], v[i]);
      } else if i == lo {
        assert r[i - 1] == v[lo - 1] && r[i] == m;
      } else if i == lo + 1 {
        assert r[i - 1] == m && r[i] == v[hi + 1];
      } else {
        assert r[i - 1] == v[i - 1 + hi - lo] && r[i] == v[i + hi - lo];
        assert !Mergeable(v[i - 1 + hi - lo], v[i + hi - lo]);
      }
    }
  }

  lemma MergeConserves(v: seq<Dpme>, k: nat)
    requires Sound(v) && k < |v|
    ensures var lo, hi := MergeLow(v, k), MergeHigh(v, k);
      && v[lo].start <= End(v[hi]) < U32
      && Conserves(v, Splice(v, lo, hi + 1, [Merged(v, lo, hi)]))
  {
    MergedTiles(v, k);
    var lo, hi := MergeLow(v, k), MergeHigh(v, k);
    hide Tiles, Sound;
    SpliceConserves(v, lo, hi + 1, [Merged(v, lo, hi)], v[lo].start, End(v[hi]));
  }

  lemma UsedOne(d: Dpme)
    ensures Used([d]) == if d.ptype == FreeType then [] else [d]
  {
    assert [d][..0] == [];
  }

  /** Between lo and hi, only entry `k` itself can be in use: it is what an exchange takes out. */
  lemma MergeUsed(v: seq<Dpme>, k: nat, lo: nat, hi: nat, p: seq<Dpme>)
    requires k < |v|
    requires lo == k || (lo + 1 == k && v[lo].ptype == FreeType)
    requires hi == k || (hi == k + 1 < |v| && v[hi].ptype == FreeType)
    ensures Used(Splice(v, lo, hi + 1, p)) == Used(v[..k]) + Used(p) + Used(v[k + 1..])
  {
    hide *;
    UsedSplice(v, lo, hi + 1, p);
    if lo < k {
      UsedOne(v[lo]);
      UsedConcat(v[..lo], [v[lo]]);
      assert v[..k] == v[..lo] + [v[lo]];
    }
    if k < hi {
      UsedOne(v[hi]);
      UsedConcat([v[hi]], v[hi + 1..]);
      assert v[k + 1..] == [v[hi]] + v[hi + 1..];
    }
  }

  /**
   A delete that is carried out keeps the map sound, its blocks and its coalescing, and
   takes exactly the deleted partition out of use.
   */
  lemma DeleteKeeps<Id>(s: State<Id>, k: nat)
    requires WF(s) && Sound(BaseView(s)) && k < |s.base| && s.base[k] in s.data && Deletable(s, s.base[k])
    ensures var v, w := BaseView(s), BaseView(Delete(s, s.base[k]));
      && Conserves(v, w)
      && (Coalesced(v) ==> Coalesced(w))
      && Used(w) == Used(v[..k]) + Used(v[k + 1..])
  {
    hide Sound, Coherent, Elements, NoDup, View, Splice, Conserves, Coalesced, Used, Delete;
    var v := BaseView(s);
    DeleteEffect(s, k);
    MergeConserves(v, k);
    MergeUsed(v, k, MergeLow(v, k), MergeHigh(v, k), [Merged(v, MergeLow(v, k), MergeHigh(v, k))]);
    UsedOne(Merged(v, MergeLow(v, k), MergeHigh(v, k)));
    if Coalesced(v) {
      MergeCoalesced(v, k);
    }
  }

  /**
   Reordering is a clamped move: the entry numbered `from` becomes number `to`,
   or the nearest there is, the others keep their order, and no partition changes.
   */
  lemma ReorderMoves<Id>(s: State<Id>, from: int, to: int)
    requires WF(s) && 1 <= from <= |s.disk|
    ensures var r, id := Reorder(s, from, to), s.disk[from - 1];
      && r == s.(disk := r.disk) && |r.disk| == |s.disk|
      && r.disk[Clamp(to, |s.disk|) - 1] == id && id in Elements(s.disk) && id in Elements(r.disk)
      && Without(r.disk, id) == Without(s.disk, id)
  {
    var n := |s.disk|;
    var place := Clamp(to, n) - 1;
    var r := Reorder(s, from, to);
    IndexOfAt(s.disk, from - 1);
    IndexOfAt(r.disk, place);
    assert RemoveAt(r.disk, place) == RemoveAt(s.disk, from - 1);
  }

  // ----- resizing

  /** A resize that gets past its checks asks for at least one block, and for real ones. */
  lemma ResizeProper(v: seq<Dpme>, newSize: int)
    requires Sound(v) && !Covers(v, 0) && ResizeStarts(v, newSize)
    ensures 0 < newSize && 1 + newSize < U32
  {
    var k := MapIndex(v);
    assert End(v[k]) > 0 && (v[k].start == 0 ==> Covers(v, 0));
  }
}
