/**
 The disk extents of a partition map in base order, and what replacing a run
 of adjacent extents by another run over the same blocks leaves unchanged.
 */
module Geometry {
  import opened Words
  import opened MapModel

  function End(d: Dpme): int {
    d.start + d.blocks
  }

  /** Non-empty extents within 32 bits, in ascending order and pairwise disjoint. */
  ghost predicate Sound(v: seq<Dpme>) {
    && (forall i :: 0 <= i < |v| ==> 0 < v[i].blocks && End(v[i]) < U32)
    && (forall i, j :: 0 <= i < j < |v| ==> End(v[i]) <= v[j].start)
  }

  /** Block `x` belongs to some extent. */
  ghost predicate Covers(v: seq<Dpme>, x: int) {
    exists i :: 0 <= i < |v| && v[i].start <= x < End(v[i])
  }

  ghost predicate SameBlocks(v: seq<Dpme>, w: seq<Dpme>) {
    forall x :: Covers(v, x) <==> Covers(w, x)
  }

  /** Non-empty extents that follow one another without gap from block `a` to block `b`. */
  ghost predicate Tiles(v: seq<Dpme>, a: int, b: int) {
    && 0 < |v| && v[0].start == a && End(v[|v| - 1]) == b
    && (forall i :: 0 <= i < |v| ==> 0 < v[i].blocks)
    && (forall i :: 0 < i < |v| ==> End(v[i - 1]) == v[i].start)
  }

  /** No two neighbours are both free and contiguous. */
  ghost predicate Coalesced(v: seq<Dpme>) {
    forall i :: 0 < i < |v| ==> !Mergeable(v[i - 1], v[i])
  }

  /** `v` with the extents i..j replaced by `p`. */
  function Splice<T>(v: seq<T>, i: nat, j: nat, p: seq<T>): seq<T>
    requires i <= j <= |v|
  {
    v[..i] + p + v[j..]
  }

  lemma TilesAscend(v: seq<Dpme>, a: int, b: int, i: nat, j: nat)
    requires Tiles(v, a, b) && i <= j < |v|
    ensures v[i].start <= v[j].start && End(v[i]) <= End(v[j])
    ensures i < j ==> End(v[i]) <= v[j].start
    decreases j - i
  {
    if i < j {
      TilesAscend(v, a, b, i, j - 1);
    }
  }

  /** A tiling covers exactly the blocks between its ends. */
  lemma TilesCover(v: seq<Dpme>, a: int, b: int, x: int)
    requires Tiles(v, a, b)
    ensures Covers(v, x) <==> a <= x < b
  {
    if Covers(v, x) {
      var i :| 0 <= i < |v| && v[i].start <= x < End(v[i]);
      TilesAscend(v, a, b, 0, i);
      TilesAscend(v, a, b, i, |v| - 1);
    } else if a <= x < b {
      var i := |v| - 1;
      while x < v[i].start
        invariant 0 <= i < |v| && x < End(v[i])
      {
        i := i - 1;
      }
    }
  }

  /** Exchanging one tiling of [a, b) for another inside a sound map keeps it sound and keeps its blocks. */
  lemma SpliceKeeps(v: seq<Dpme>, i: nat, j: nat, p: seq<Dpme>, a: int, b: int)
    requires Sound(v) && i < j <= |v| && Tiles(v[i..j], a, b) && Tiles(p, a, b)
    ensures Sound(Splice(v, i, j, p))
    ensures SameBlocks(v, Splice(v, i, j, p))
  {
    SpliceSound(v, i, j, p, a, b);
    forall x ensures Covers(v, x) <==> Covers(Splice(v, i, j, p), x) {
      SpliceCovers(v, i, j, p, x);
      SpliceCovers(v, i, j, v[i..j], x);
      assert Splice(v, i, j, v[i..j]) == v;
      TilesCover(p, a, b, x);
      TilesCover(v[i..j], a, b, x);
    }
  }

  lemma SpliceCovers(v: seq<Dpme>, i: nat, j: nat, p: seq<Dpme>, x: int)
    requires i <= j <= |v|
    ensures Covers(Splice(v, i, j, p), x) <==> Covers(v[..i], x) || Covers(p, x) || Covers(v[j..], x)
  {
    var r := Splice(v, i, j, p);
    if Covers(v[..i], x) {
      var k :| 0 <= k < i && v[..i][k].start <= x < End(v[..i][k]);
      assert r[k] == v[..i][k];
    }
    if Covers(p, x) {
      var k :| 0 <= k < |p| && p[k].start <= x < End(p[k]);
      assert r[i + k] == p[k];
    }
    if Covers(v[j..], x) {
      var k :| 0 <= k < |v[j..]| && v[j..][k].start <= x < End(v[j..][k]);
      assert r[i + |p| + k] == v[j..][k];
    }
    if Covers(r, x) {
      var k :| 0 <= k < |r| && r[k].start <= x < End(r[k]);
      if k < i {
        assert r[k] == v[..i][k];
      } else if k < i + |p| {
        assert r[k] == p[k - i];
      } else {
        assert r[k] == v[j..][k - i - |p|];
      }
    }
  }

  /** Where the extents of a splice lie: before a, between a and b, or from b on. */
  lemma SpliceWithin(v: seq<Dpme>, i: nat, j: nat, p: seq<Dpme>, a: int, b: int, k: nat)
    requires Sound(v) && i < j <= |v| && Tiles(v[i..j], a, b) && Tiles(p, a, b) && k < |Splice(v, i, j, p)|
    ensures 0 < Splice(v, i, j, p)[k].blocks && End(Splice(v, i, j, p)[k]) < U32
    ensures k < i ==> End(Splice(v, i, j, p)[k]) <= a
    ensures i + |p| <= k ==> b <= Splice(v, i, j, p)[k].start
    ensures i <= k < i + |p| ==> a <= Splice(v, i, j, p)[k].start && End(Splice(v, i, j, p)[k]) <= b
  {
    SpliceAt(v, i, j, p);
    hide Splice, Tiles;
    TilesBounds(v[i..j], a, b);
    TilesBounds(p, a, b);
    assert v[i..j][0] == v[i] && v[i..j][j - i - 1] == v[j - 1];
    if k < i {
      assert End(v[k]) <= v[i].start;
    } else if i + |p| <= k {
      assert End(v[j - 1]) <= v[k - |p| - i + j].start;
    }
  }

  /** Two extents of a splice that come from the same part are in order. */
  lemma SplicePair(v: seq<Dpme>, i: nat, j: nat, p: seq<Dpme>, a: int, b: int, k: nat, l: nat)
    requires Sound(v) && i < j <= |v| && Tiles(p, a, b) && k < l < |Splice(v, i, j, p)|
    requires l < i || (i <= k && l < i + |p|) || i + |p| <= k
    ensures End(Splice(v, i, j, p)[k]) <= Splice(v, i, j, p)[l].start
  {
    SpliceAt(v, i, j, p);
    hide Splice, Tiles;
    TilesBounds(p, a, b);
    if l < i {
      assert End(v[k]) <= v[l].start;
    } else if k < i + |p| {
      assert End(p[k - i]) <= p[l - i].start;
    } else {
      assert End(v[k - |p| - i + j]) <= v[l - |p| - i + j].start;
    }
  }

  lemma SpliceSound(v: seq<Dpme>, i: nat, j: nat, p: seq<Dpme>, a: int, b: int)
    requires Sound(v) && i < j <= |v| && Tiles(v[i..j], a, b) && Tiles(p, a, b)
    ensures Sound(Splice(v, i, j, p))
  {
    hide Splice, Tiles;
    var r := Splice(v, i, j, p);
    forall k | 0 <= k < |r| ensures 0 < r[k].blocks && End(r[k]) < U32 {
      SpliceWithin(v, i, j, p, a, b, k);
    }
    forall k, l | 0 <= k < l < |r| ensures End(r[k]) <= r[l].start {
      if l < i || (i <= k && l < i + |p|) || i + |p| <= k {
        SplicePair(v, i, j, p, a, b, k, l);
      } else {
        TilesBounds(p, a, b);
        SpliceWithin(v, i, j, p, a, b, k);
        SpliceWithin(v, i, j, p, a, b, l);
      }
    }
  }

  lemma TilesBounds(v: seq<Dpme>, a: int, b: int)
    requires Tiles(v, a, b)
    ensures 0 < |v| && v[0].start == a && End(v[|v| - 1]) == b
    ensures forall k :: 0 <= k < |v| ==> 0 < v[k].blocks && a <= v[k].start && End(v[k]) <= b
    ensures forall k, l :: 0 <= k < l < |v| ==> End(v[k]) <= v[l].start
  {
    forall k | 0 <= k < |v| ensures a <= v[k].start && End(v[k]) <= b {
      TilesAscend(v, a, b, 0, k);
      TilesAscend(v, a, b, k, |v| - 1);
    }
    forall k, l | 0 <= k < l < |v| ensures End(v[k]) <= v[l].start {
      TilesAscend(v, a, b, k, l);
    }
  }

  /** A tiling of the whole map stays one. */
  lemma SpliceTiles(v: seq<Dpme>, i: nat, j: nat, p: seq<Dpme>, a: int, b: int, lo: int, hi: int)
    requires Tiles(v, lo, hi) && i < j <= |v| && Tiles(v[i..j], a, b) && Tiles(p, a, b)
    ensures Tiles(Splice(v, i, j, p), lo, hi)
  {
    var r := Splice(v, i, j, p);
    var n := |p|;
    assert v[i..j][0] == v[i] && v[i..j][j - i - 1] == v[j - 1];
    SpliceAt(v, i, j, p);
    hide Splice;
    forall k | 0 < k < |r| ensures End(r[k - 1]) == r[k].start {
      if k < i {
        assert r[k - 1] == v[k - 1] && r[k] == v[k];
      } else if k == i {
        assert r[k - 1] == v[k - 1] && r[k] == p[0] && v[k].start == a;
      } else if k < i + n {
        assert r[k - 1] == p[k - i - 1] && r[k] == p[k - i];
      } else if k == i + n {
        assert r[k - 1] == p[n - 1] && r[k] == v[j] && End(v[j - 1]) == b;
      } else {
        assert r[k - 1] == v[k - 1 - n - i + j] && r[k] == v[k - n - i + j];
      }
    }
  }

  lemma SpliceAt<T>(v: seq<T>, i: nat, j: nat, p: seq<T>)
    requires i <= j <= |v|
    ensures var r, n := Splice(v, i, j, p), |p|;
      && |r| == i + n + |v| - j
      && forall k :: 0 <= k < |r| ==> r[k] == if k < i then v[k] else if k < i + n then p[k - i] else v[k - n - i + j]
  {
  }
}
