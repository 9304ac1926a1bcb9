/** How the two orders of a partition map look after each elementary change. */
module Views {
  import opened Seqs
  import opened MapModel

  /** New data for one entry shows at its place in both orders and nowhere else. */
  lemma UpdateViews<Id>(s: State<Id>, k: nat, d: Dpme)
    requires WF(s) && k < |s.base|
    ensures s.base[k] in s.data && s.base[k] in Elements(s.disk)
    ensures var r := s.(data := s.data[s.base[k] := d]);
      && WF(r)
      && BaseView(r) == BaseView(s)[k := d]
      && DiskView(r) == DiskView(s)[IndexOf(s.disk, s.base[k]) := d]
  {
    var id := s.base[k];
    ElementAt(s.base, k);
    var r := s.(data := s.data[id := d]);
    assert r.data.Keys == s.data.Keys;
    var p := IndexOf(s.disk, id);
    forall i | 0 <= i < |s.disk| ensures DiskView(r)[i] == DiskView(s)[p := d][i] {
    }
    forall i | 0 <= i < |s.base| ensures BaseView(r)[i] == BaseView(s)[k := d][i] {
    }
  }

  /** A new entry shows at the two places it was inserted. */
  lemma InsertViews<Id>(s: State<Id>, id: Id, d: Dpme, p: nat, q: nat)
    requires WF(s) && id !in s.data && p <= |s.disk| && q <= |s.base|
    ensures BaseView(InsertEntry(s, id, d, p, q)) == InsertAt(BaseView(s), q, d)
    ensures DiskView(InsertEntry(s, id, d, p, q)) == InsertAt(DiskView(s), p, d)
  {
    var r := InsertEntry(s, id, d, p, q);
    ElementIn(s.disk, id);
    ElementIn(s.base, id);
    forall i | 0 <= i < |r.disk| ensures DiskView(r)[i] == InsertAt(DiskView(s), p, d)[i] {
      assert r.disk[i] == if i < p then s.disk[i] else if i == p then id else s.disk[i - 1];
    }
    forall i | 0 <= i < |r.base| ensures BaseView(r)[i] == InsertAt(BaseView(s), q, d)[i] {
      assert r.base[i] == if i < q then s.base[i] else if i == q then id else s.base[i - 1];
    }
  }

  /** A deleted entry disappears from its places in both orders. */
  lemma DeleteViews<Id>(s: State<Id>, k: nat)
    requires WF(s) && k < |s.base|
    ensures s.base[k] in s.data && s.base[k] in Elements(s.disk)
    ensures var r := DeleteEntry(s, s.base[k]);
      && r.base == RemoveAt(s.base, k)
      && BaseView(r) == RemoveAt(BaseView(s), k)
      && DiskView(r) == RemoveAt(DiskView(s), IndexOf(s.disk, s.base[k]))
  {
    IndexOfAt(s.base, k);
    var r := DeleteEntry(s, s.base[k]);
    var p := IndexOf(s.disk, s.base[k]);
    forall i | 0 <= i < |r.disk| ensures DiskView(r)[i] == RemoveAt(DiskView(s), p)[i] {
      assert r.disk[i] == if i < p then s.disk[i] else s.disk[i + 1];
    }
    forall i | 0 <= i < |r.base| ensures BaseView(r)[i] == RemoveAt(BaseView(s), k)[i] {
      assert r.base[i] == if i < k then s.base[i] else s.base[i + 1];
    }
  }

  /** Both orders have the same length. */
  lemma SameSize<Id>(s: State<Id>)
    requires WF(s)
    ensures |s.disk| == |s.base|
  {
  }
}
