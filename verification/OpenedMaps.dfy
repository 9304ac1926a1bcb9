/** Editing a map that was opened from a disk rather than made. */
module OpenedMaps {
  import opened Words
  import opened Seqs
  import opened MapModel
  import opened Geometry
  import opened MapTheorems
  import opened Entries
  import opened PartitionMaps
  import opened MapFiles
  import opened Sessions
  import opened Requests

  /** The entries of a disk, in any order: non-empty extents above block 0 that do not overlap. */
  predicate Extents(w: seq<Dpme>) {
    && (forall i :: 0 <= i < |w| ==> 0 < w[i].start && 0 < w[i].blocks && End(w[i]) < U32)
    && (forall i, j :: 0 <= i < j < |w| ==> Aside(w[i], w[j]))
  }

  predicate Aside(d: Dpme, e: Dpme) {
    End(d) <= e.start || End(e) <= d.start
  }

  lemma Cancel<T>(m: multiset<T>, n: multiset<T>, x: T)
    requires m + multiset{x} == n + multiset{x}
    ensures m == n
  {
    assert m + multiset{x} - multiset{x} == m;
    assert n + multiset{x} - multiset{x} == n;
  }

  /** Equal multisets have two different places for two different places. */
  lemma TwoPlaces<T>(v: seq<T>, w: seq<T>, i: nat, j: nat) returns (a: nat, b: nat)
    requires multiset(v) == multiset(w) && i < j < |v|
    ensures a < |w| && b < |w| && a != b && w[a] == v[i] && w[b] == v[j]
  {
    assert v[i] in multiset(w) && v[j] in multiset(w);
    a :| 0 <= a < |w| && w[a] == v[i];
    RemoveMultiset(v, i);
    RemoveMultiset(w, a);
    var rest := RemoveAt(w, a);
    Cancel(multiset(RemoveAt(v, i)), multiset(rest), v[i]);
    assert RemoveAt(v, i)[j - 1] == v[j];
    assert v[j] in multiset(RemoveAt(v, i));
    assert v[j] in multiset(rest);
    var c :| 0 <= c < |rest| && rest[c] == v[j];
    b := if c < a then c else c + 1;
  }

  /** Sorted by start, such entries make a sound map. */
  lemma OpenedSound(v: seq<Dpme>, w: seq<Dpme>)
    requires Ascending(v) && multiset(v) == multiset(w) && Extents(w)
    ensures Sound(v) && !Covers(v, 0)
  {
    forall i | 0 <= i < |v| ensures 0 < v[i].start && 0 < v[i].blocks && End(v[i]) < U32 {
      assert v[i] in multiset(w);
      var a :| 0 <= a < |w| && w[a] == v[i];
    }
    forall i, j | 0 <= i < j < |v| ensures End(v[i]) <= v[j].start {
      var a, b := TwoPlaces(v, w, i, j);
      assert if a < b then Aside(w[a], w[b]) else Aside(w[b], w[a]);
    }
  }

  /**
   Opening a disk and running any commands: if the entries on the disk do not overlap,
   the map goes on covering exactly their blocks, and every entry in use that holds a
   driver stays where it is.
   */
  method OpenAndEdit(device: Device, media: nat, drivers: seq<Driver>, commands: seq<Command>)
    returns (ok: bool, m: PartitionMap, ghost first: State<Entry>)
    requires forall c :: c in commands ==> Proper(c)
    ensures ok == Opens(device.blocks) && fresh(m)
    ensures ok ==>
      var w := EntriesAt(device.blocks, device.blocks[1].mapEntries, EntryCount(device.blocks));
      && m.Valid() && Holding(first, w) && WF(first) && (Extents(w) ==> Keeps(first, m.Model()))
      && (Extents(w) ==> forall drv, start, blocks ::
            drv in drivers && Plain(drv) && Guarded(BaseView(first), drv, start, blocks) ==>
              Guarded(BaseView(m.Model()), drv, start, blocks))
      && (Extents(w) && Owned(first) && (forall c :: c in commands ==> !c.ResizeCommand?) ==> Owned(m.Model()))
  {
    hide Coherent, NoDup, Elements, View, OnDisk, ByBase, ReadSoFar, EntriesTo, EntriesAt, Holding, Extents, Guarded,
        Plain, Conserves, Sound;
    m := new PartitionMap.Empty(media, drivers);
    ok := ReadPartitionMap(m, device);
    first := m.Model();
    if ok {
      ghost var w := EntriesAt(device.blocks, device.blocks[1].mapEntries, EntryCount(device.blocks));
      ReadNumbered(m, device.blocks);
      if Extents(w) {
        HoldingSound(first, w);
      }
      ghost var states, ids := Edit(m, commands);
      if Extents(w) {
        SessionKeeps(states, commands, ids, |commands|);
        forall drv, start, blocks | drv in drivers && Plain(drv) && Guarded(BaseView(first), drv, start, blocks)
          ensures Guarded(BaseView(m.Model()), drv, start, blocks)
        {
          SessionGuards(states, commands, ids, |commands|, drv, start, blocks);
        }
        if forall c :: c in commands ==> !c.ResizeCommand? {
          SessionOwned(states, commands, ids, |commands|);
        }
      }
    }
  }

  lemma HoldingSound<Id>(s: State<Id>, w: seq<Dpme>)
    requires Holding(s, w) && Extents(w)
    ensures Managed(s)
  {
    OpenedSound(BaseView(s), w);
  }

  /** A new map, any commands, saving and opening again: the map is as it was. */
  method EditAndReopen(size: u32, commands: seq<Command>, device: Device, block0: Block)
    returns (m: PartitionMap, ok: bool, r: PartitionMap)
    requires forall c :: c in commands ==> Proper(c)
    modifies device
    ensures m.Valid() && ok && r.Valid() && WF(m.Model()) && WF(r.Model())
    ensures DiskView(r.Model()) == DiskView(m.Model()) && BaseView(r.Model()) == BaseView(m.Model())
    ensures Tiles(BaseView(r.Model()), 1, if size < 4 then 4 else size)
  {
    hide Coherent, NoDup, Elements, View, OnDisk, ByBase, Sound, StrictlyAscending, Whole, Coalesced, Covers;
    m := EditNewMap(size, commands);
    SoundAscends(BaseView(m.Model()));
    SomeEntries(m.Model(), 1, if size < 4 then 4 else size);
    ok, r := SaveAndReopen(m, device, block0);
  }
}
