/** Whole editing sessions: every run of the commands of pdisk.c on one map. */
module Sessions {
  import opened Words
  import opened Seqs
  import opened MapModel
  import opened Geometry
  import opened Views
  import opened Allocation
  import opened MapTheorems
  import opened Entries
  import opened PartitionMaps

  /** The commands c/C/B, d, r and s with their arguments. */
  datatype Command =
    | CreateCommand(name: string, ptype: PartType, start: u32, blocks: u32)
    | DeleteCommand(number: int)
    | ReorderCommand(from: int, to: int)
    | ResizeCommand(size: int)

  /** A create command names at least one block, and real ones. */
  predicate Proper(c: Command) {
    c.CreateCommand? ==> 0 < c.blocks && c.start + c.blocks < U32
  }

  /** pdisk.c lets the user create neither free space nor a second map. */
  predicate Creatable(ptype: PartType) {
    ptype != FreeType && ptype != MapType
  }

  ghost function StepAllocates<Id>(s: State<Id>, c: Command): nat
    requires WF(s)
  {
    match c
    case CreateCommand(_, ptype, b, len) => if Creatable(ptype) then Allocates(s, b, len) else 0
    case ResizeCommand(size) => ResizeAllocates(s, size)
    case _ => 0
  }

  /** What a command makes of the map; `ids` name the entries it allocates. */
  ghost function Step<Id>(s: State<Id>, c: Command, ids: seq<Id>): (r: State<Id>)
    requires WF(s) && FreshIds(s, ids, StepAllocates(s, c))
    ensures WF(r)
  {
    match c
    case CreateCommand(name, ptype, b, len) => if Creatable(ptype) then Create(s, name, ptype, b, len, ids) else s
    case DeleteCommand(n) => if 1 <= n <= |s.disk| then DeleteNumber(s, n) else s
    case ReorderCommand(from, to) => Reorder(s, from, to)
    case ResizeCommand(size) => Resize(s, size, ids)
  }

  ghost function DeleteNumber<Id>(s: State<Id>, n: int): (r: State<Id>)
    requires WF(s) && 1 <= n <= |s.disk|
    ensures WF(r)
  {
    ElementAt(s.disk, n - 1);
    Delete(s, s.disk[n - 1])
  }

  /** What the editor keeps of any map that has it: non-empty disjoint extents above block 0. */
  ghost predicate Managed<Id>(s: State<Id>) {
    WF(s) && Sound(BaseView(s)) && !Covers(BaseView(s), 0)
  }

  /**
   The same blocks, arranged as soundly; no two free neighbours if there were none; and
   the same capacity, not exceeded if it was not.
   */
  ghost predicate Keeps<Id>(s: State<Id>, r: State<Id>) {
    && Managed(s) && Managed(r)
    && Conserves(BaseView(s), BaseView(r))
    && (Coalesced(BaseView(s)) ==> Coalesced(BaseView(r)))
    && (0 <= s.maximum ==> r.maximum == s.maximum && (|s.disk| <= s.maximum ==> |r.disk| <= r.maximum))
  }

  lemma CreateStep<Id>(s: State<Id>, name: string, ptype: PartType, b: u32, len: u32, ids: seq<Id>)
    requires Managed(s) && FreshIds(s, ids, Allocates(s, b, len))
    requires ptype != FreeType && 0 < len && b + len < U32
    ensures Keeps(s, Create(s, name, ptype, b, len, ids))
  {
    hide Coherent, NoDup, Elements, View, Sound, Coalesced, Covers, AddData, Splice, Pieces, ActionFor, Holds;
    var r := Create(s, name, ptype, b, len, ids);
    if Accepts(s, b, len) {
      CreateKeeps(s, name, ptype, b, len, ids);
      CreateCapacity(s, name, ptype, b, len, ids);
      ConservesCovers(BaseView(s), BaseView(r));
    } else {
      ConservesSelf(BaseView(s));
    }
  }

  lemma ConservesSelf(v: seq<Dpme>)
    requires Sound(v)
    ensures Conserves(v, v)
  {
  }

  lemma ConservesCovers(v: seq<Dpme>, w: seq<Dpme>)
    requires Conserves(v, w) && !Covers(v, 0)
    ensures !Covers(w, 0)
  {
  }

  /** A create never takes more entries than the capacity of the map, which it leaves alone. */
  lemma CreateCapacity<Id>(s: State<Id>, name: string, ptype: PartType, b: u32, len: u32, ids: seq<Id>)
    requires WF(s) && Accepts(s, b, len) && FreshIds(s, ids, Allocates(s, b, len))
    ensures |Create(s, name, ptype, b, len, ids).disk| <= Limit(s)
    ensures 0 <= s.maximum ==> Create(s, name, ptype, b, len, ids).maximum == s.maximum
  {
    hide Coherent, NoDup, Elements, View;
  }

  lemma DeleteStep<Id>(s: State<Id>, k: nat)
    requires Managed(s) && k < |s.base|
    ensures s.base[k] in s.data && Keeps(s, Delete(s, s.base[k]))
  {
    ElementAt(s.base, k);
    hide Coherent, NoDup, Elements, View, Sound, Coalesced, Covers, Splice, Combine;
    if Deletable(s, s.base[k]) {
      DeleteKeeps(s, k);
      DeleteCapacity(s, s.base[k]);
      ConservesCovers(BaseView(s), BaseView(Delete(s, s.base[k])));
    } else {
      ConservesSelf(BaseView(s));
    }
  }

  lemma DeleteCapacity<Id>(s: State<Id>, id: Id)
    requires WF(s) && id in s.data
    ensures |Delete(s, id).disk| <= |s.disk| && Delete(s, id).maximum == s.maximum
  {
    hide Coherent, NoDup, Elements, View;
  }

  lemma ReorderStep<Id>(s: State<Id>, from: int, to: int)
    requires Managed(s)
    ensures Keeps(s, Reorder(s, from, to))
  {
    hide Coherent, NoDup, Elements, View, Sound, Coalesced, Covers, InsertAt, RemoveAt;
    ConservesSelf(BaseView(s));
  }

  /** Blanking the type of the map's own entry changes nothing about the blocks. */
  lemma BlankConserves(v: seq<Dpme>, k: nat, blank: Dpme)
    requires Sound(v) && k < |v| && v[k].ptype != FreeType
    requires blank == v[k].(ptype := blank.ptype) && blank.ptype != FreeType
    ensures Conserves(v, v[k := blank]) && (Coalesced(v) ==> Coalesced(v[k := blank]))
  {
    assert v[k..k + 1] == [v[k]];
    assert Splice(v, k, k + 1, [blank]) == v[k := blank];
    SpliceConserves(v, k, k + 1, [blank], v[k].start, End(v[k]));
    if Coalesced(v) {
      var w := v[k := blank];
      forall i | 0 < i < |w| ensures !Mergeable(w[i - 1], w[i]) {
        assert !Mergeable(v[i - 1], v[i]);
      }
    }
  }

  lemma KeepsTrans<Id>(s: State<Id>, r: State<Id>, q: State<Id>)
    requires Keeps(s, r) && Keeps(r, q)
    ensures Keeps(s, q)
  {
    forall x ensures Covers(BaseView(s), x) <==> Covers(BaseView(q), x) {
      assert Covers(BaseView(s), x) <==> Covers(BaseView(r), x);
    }
  }

  lemma ResizeMiddleStep<Id>(s: State<Id>)
    requires Managed(s) && MapIndex(BaseView(s)) < |s.base|
    ensures Keeps(s, ResizeMiddle(s))
  {
    var k := MapIndex(BaseView(s));
    var blank := BaseView(s)[k].(ptype := OtherType(""));
    UpdateViews(s, k, blank);
    hide Coherent, NoDup, Elements, View, Sound, Coalesced, Covers, Delete, MapIndex;
    BlankConserves(BaseView(s), k, blank);
    var s1 := s.(data := s.data[s.base[k] := blank]);
    DeleteStep(s1, k);
    KeepsTrans(s, s1, ResizeMiddle(s));
  }

  lemma ResizeStep<Id>(s: State<Id>, newSize: int, ids: seq<Id>)
    requires Managed(s) && FreshIds(s, ids, ResizeAllocates(s, newSize))
    ensures Keeps(s, Resize(s, newSize, ids))
  {
    hide Coherent, NoDup, Elements, View, Sound, Coalesced, Covers, Create, ResizeMiddle, Accepts;
    if ResizeStarts(BaseView(s), newSize) {
      ResizeProper(BaseView(s), newSize);
      ResizeMiddleStep(s);
      CreateStep(ResizeMiddle(s), "Apple", MapType, 1, ToU32(newSize), ids);
      KeepsTrans(s, ResizeMiddle(s), Resize(s, newSize, ids));
    } else {
      ConservesSelf(BaseView(s));
    }
  }

  /** Every command keeps the map managed and its blocks covered as they were. */
  lemma StepKeeps<Id>(s: State<Id>, c: Command, ids: seq<Id>)
    requires Managed(s) && Proper(c) && FreshIds(s, ids, StepAllocates(s, c))
    ensures Keeps(s, Step(s, c, ids))
  {
    hide Keeps, Managed, Coherent, Create, Delete, Reorder, Resize, Allocates, ResizeAllocates, FreshIds;
    ManagedSelf(s);
    match c
    case CreateCommand(name, ptype, b, len) =>
      if Creatable(ptype) {
        CreatableUsed(ptype);
        CreateStep(s, name, ptype, b, len, ids);
      }
    case DeleteCommand(n) =>
      if 1 <= n <= |s.disk| {
        EntryPlace(s, n - 1);
        DeleteStep(s, IndexOf(s.base, s.disk[n - 1]));
      }
    case ReorderCommand(from, to) => ReorderStep(s, from, to);
    case ResizeCommand(size) => ResizeStep(s, size, ids);
  }

  lemma EntryPlace<Id>(s: State<Id>, i: nat)
    requires WF(s) && i < |s.disk|
    ensures s.disk[i] in s.data && s.disk[i] in Elements(s.base)
  {
    ElementAt(s.disk, i);
  }

  lemma CreatableUsed(ptype: PartType)
    requires Creatable(ptype)
    ensures ptype != FreeType
  {
  }

  /** A session: the states before and after each command, and the entries each allocated. */
  ghost predicate Session<Id>(states: seq<State<Id>>, commands: seq<Command>, ids: seq<seq<Id>>) {
    && |states| == |commands| + 1 && |ids| == |commands|
    && forall i :: 0 <= i < |commands| ==>
         && WF(states[i]) && FreshIds(states[i], ids[i], StepAllocates(states[i], commands[i]))
         && states[i + 1] == Step(states[i], commands[i], ids[i])
  }

  /**
   Over any session that starts on a sound map, every state is sound and covers the same
   blocks; a map that tiled the disk still does, one that was coalesced still is, and one
   that was within its capacity still is.
   */
  lemma SessionKeeps<Id>(states: seq<State<Id>>, commands: seq<Command>, ids: seq<seq<Id>>, n: nat)
    requires Session(states, commands, ids) && Managed(states[0]) && n < |states|
    requires forall c :: c in commands ==> Proper(c)
    ensures Keeps(states[0], states[n])
  {
    hide Managed, Conserves;
    if n == 0 {
      ManagedSelf(states[0]);
    } else {
      SessionKeeps(states, commands, ids, n - 1);
      StepKeeps(states[n - 1], commands[n - 1], ids[n - 1]);
      KeepsTrans(states[0], states[n - 1], states[n]);
    }
  }

  lemma ManagedSelf<Id>(s: State<Id>)
    requires Managed(s)
    ensures WF(s) && Keeps(s, s)
  {
    ConservesSelf(BaseView(s));
  }

  // ----- the map's own entry

  /** The map's own entry comes first, at block 1, and its size is the capacity of the map. */
  ghost predicate Owned<Id>(s: State<Id>)
    requires WF(s)
  {
    && 0 < |s.base| && BaseView(s)[0].ptype == MapType && BaseView(s)[0].start == 1
    && BaseView(s)[0].blocks == s.maximum
  }

  lemma CreateOwned<Id>(s: State<Id>, name: string, ptype: PartType, b: u32, len: u32, ids: seq<Id>)
    requires Managed(s) && Owned(s) && FreshIds(s, ids, Allocates(s, b, len)) && 0 < len && b + len < U32
    ensures Owned(Create(s, name, ptype, b, len, ids))
  {
    hide Coherent, NoDup, Elements, View, Sound, Covers, Pieces, ActionFor, Holds, Create;
    if Accepts(s, b, len) {
      GrantedFits(s, b, len);
      CreateEffect(s, name, ptype, b, len, ids);
      CreateCapacity(s, name, ptype, b, len, ids);
    } else {
      CreateNothing(s, name, ptype, b, len, ids);
    }
  }

  lemma CreateNothing<Id>(s: State<Id>, name: string, ptype: PartType, b: u32, len: u32, ids: seq<Id>)
    requires WF(s) && !Accepts(s, b, len) && FreshIds(s, ids, Allocates(s, b, len))
    ensures Create(s, name, ptype, b, len, ids) == s
  {
  }

  lemma DeleteOwned<Id>(s: State<Id>, k: nat)
    requires Managed(s) && Owned(s) && k < |s.base|
    ensures s.base[k] in s.data && Owned(Delete(s, s.base[k]))
  {
    ElementAt(s.base, k);
    hide Coherent, NoDup, Elements, View, Sound, Covers, Combine, ContainsDriver;
    if Deletable(s, s.base[k]) {
      DeleteEffect(s, k);
      DeleteCapacity(s, s.base[k]);
    }
  }

  /** Every command but a resize leaves the map's own entry and the capacity alone. */
  lemma StepOwned<Id>(s: State<Id>, c: Command, ids: seq<Id>)
    requires Managed(s) && Owned(s) && Proper(c) && !c.ResizeCommand? && FreshIds(s, ids, StepAllocates(s, c))
    ensures Owned(Step(s, c, ids))
  {
    hide Managed, Coherent, Create, Delete, Resize, Allocates, ResizeAllocates, FreshIds;
    match c
    case CreateCommand(name, ptype, b, len) =>
      if Creatable(ptype) {
        CreateOwned(s, name, ptype, b, len, ids);
      }
    case DeleteCommand(n) =>
      if 1 <= n <= |s.disk| {
        ManagedSelf(s);
        EntryPlace(s, n - 1);
        DeleteOwned(s, IndexOf(s.base, s.disk[n - 1]));
      }
    case ReorderCommand(from, to) =>
  }

  lemma SessionOwned<Id>(states: seq<State<Id>>, commands: seq<Command>, ids: seq<seq<Id>>, n: nat)
    requires Session(states, commands, ids) && Managed(states[0]) && n < |states|
    requires forall c :: c in commands ==> Proper(c) && !c.ResizeCommand?
    ensures WF(states[0]) && WF(states[n]) && (Owned(states[0]) ==> Owned(states[n]))
  {
    hide Conserves, Sound, Covers, Owned;
    SessionKeeps(states, commands, ids, n);
    if Owned(states[0]) && 0 < n {
      SessionOwned(states, commands, ids, n - 1);
      SessionKeeps(states, commands, ids, n - 1);
      StepOwned(states[n - 1], commands[n - 1], ids[n - 1]);
    }
  }

  // ----- the sessions of the real editor

  /** The one free entry of a blank map holds the map's own entry, at its front. */
  lemma InitPieces(free: Dpme, own: u32)
    requires free.start == 1 && own < free.blocks && 1 + free.blocks < U32 && 0 < own
    ensures Holder([free], 1, own) == 0 && Sound([free])
    ensures var made := CreateData("Apple", MapType, 1, own);
      && End(made) <= End(free)
      && Splice([free], 0, 1, Pieces(free, made)) == [made, Sized(free, 1 + own, free.blocks - own)]
  {
    assert Holds([free][0], 1, own);
  }

  lemma CreateMaximum<Id>(s: State<Id>, own: u32, ids: seq<Id>)
    requires WF(s) && s.maximum == -1 && Accepts(s, 1, own) && FreshIds(s, ids, Allocates(s, 1, own))
    requires Cost(ActionFor(BaseView(s)[Holder(BaseView(s), 1, own)], 1, own)) == 1
    ensures Create(s, "Apple", MapType, 1, own, ids).maximum == ToInt32(own)
  {
    hide Coherent, NoDup, Elements, View, Accepts, ActionFor, Holder;
  }

  /** The map's own entry is cut from the front of the one free entry of a blank map. */
  lemma InitView<Id>(s: State<Id>, own: u32, ids: seq<Id>)
    requires WF(s) && s.media < U32 && 1 + own < s.media && 0 < own && s.maximum == -1 && 1 < s.media
    requires BaseView(s) == [FreeData(1, s.media - 1).(flags := BLANK_FLAGS)]
    requires FreshIds(s, ids, Allocates(s, 1, own))
    ensures Create(s, "Apple", MapType, 1, own, ids).maximum == ToInt32(own)
    ensures BaseView(Create(s, "Apple", MapType, 1, own, ids)) == [
      CreateData("Apple", MapType, 1, own),
      Sized(FreeData(1, s.media - 1).(flags := BLANK_FLAGS), 1 + own, s.media - 1 - own)]
  {
    hide Coherent, NoDup, Elements, View, Sound, Create, Pieces, Splice, Holder, Sized;
    InitPieces(BaseView(s)[0], own);
    SameSize(s);
    CreateEffect(s, "Apple", MapType, 1, own, ids);
    CreateMaximum(s, own, ids);
  }

  /** A new map is managed and tiles the disk after block 0. */
  lemma InitManaged<Id>(s: State<Id>, own: u32, rest: u32)
    requires WF(s) && s.maximum == own >= 2 && 0 < rest && 1 + own + rest < U32
    requires BaseView(s) == [
      CreateData("Apple", MapType, 1, own),
      Sized(FreeData(1, own + rest).(flags := BLANK_FLAGS), 1 + own, rest)]
    ensures Managed(s) && Tiles(BaseView(s), 1, 1 + own + rest) && Whole(BaseView(s)) && Coalesced(BaseView(s))
    ensures |s.disk| == 2 && Owned(s)
  {
  }

  /** init_partition_map: a new map on a disk of `size` blocks, with its own entry. */
  method InitPartitionMap(size: u32) returns (m: PartitionMap)
    ensures fresh(m) && fresh(m.contents.Keys) && m.Valid()
    ensures m.mediaSize == if size < 4 then 4 else size
    ensures var own := if m.mediaSize <= 128 then 2 else 63;
      && m.maximumInMap == own && m.drivers == []
      && BaseView(m.Model()) == [
           CreateData("Apple", MapType, 1, own),
           Sized(FreeData(1, m.mediaSize - 1).(flags := BLANK_FLAGS), 1 + own, m.mediaSize - 1 - own)]
  {
    m := new PartitionMap.Blank(size);
    hide Coherent, NoDup, OnDisk, ByBase, Elements, View, Create, Allocates;
    var own: u32 := if m.mediaSize <= 128 then 2 else 63;
    ghost var was := m.Model();
    var ok, ids := m.AddPartitionToMap("Apple", MapType, 1, own);
    InitView(was, own, ids);
  }

  /** One turn of the command loop. */
  method Execute(m: PartitionMap, c: Command) returns (ghost ids: seq<Entry>)
    requires m.Valid()
    modifies m, m.contents.Keys
    ensures m.Valid() && fresh(m.contents.Keys - old(m.contents.Keys))
    ensures FreshIds(old(m.Model()), ids, StepAllocates(old(m.Model()), c))
    ensures m.Model() == Step(old(m.Model()), c, ids)
  {
    hide Coherent, OnDisk, ByBase, Elements, View, Create, Allocates, Resize, ResizeAllocates, Reorder, Delete;
    ids := [];
    match c {
      case CreateCommand(name, ptype, b, len) =>
        if ptype != FreeType && ptype != MapType {
          var ok;
          ok, ids := m.AddPartitionToMap(name, ptype, b, len);
        }
      case DeleteCommand(n) =>
        var cur := m.FindEntryByDiskAddress(n);
        if cur != null {
          m.ListsInContents();
          m.DeletePartitionFromMap(cur);
        }
      case ReorderCommand(from, to) =>
        m.MoveEntryInMap(from, to);
      case ResizeCommand(size) =>
        ids := m.ResizeMap(size);
    }
  }

  /** The command loop of the editor refines a session of the abstract map. */
  method Edit(m: PartitionMap, commands: seq<Command>)
    returns (ghost states: seq<State<Entry>>, ghost ids: seq<seq<Entry>>)
    requires m.Valid()
    modifies m, m.contents.Keys
    ensures m.Valid()
    ensures Session(states, commands, ids)
    ensures states[0] == old(m.Model()) && states[|commands|] == m.Model()
  {
    hide Coherent, OnDisk, ByBase, NoDup, FreshIds, Step, StepAllocates;
    states, ids := [m.Model()], [];
    for n := 0 to |commands|
      invariant m.Valid() && fresh(m.contents.Keys - old(m.contents.Keys))
      invariant Session(states, commands[..n], ids)
      invariant states[0] == old(m.Model()) && states[n] == m.Model()
    {
      ghost var newIds := Execute(m, commands[n]);
      states, ids := states + [m.Model()], ids + [newIds];
    }
    assert commands[..|commands|] == commands;
  }

  /** A session on a new map: whatever the commands, the extents tile the disk from block 1 to its end. */
  method EditNewMap(size: u32, commands: seq<Command>) returns (m: PartitionMap)
    requires forall c :: c in commands ==> Proper(c)
    ensures m.Valid() && Managed(m.Model()) && Coalesced(BaseView(m.Model()))
    ensures Tiles(BaseView(m.Model()), 1, if size < 4 then 4 else size)
    ensures Whole(BaseView(m.Model())) && |m.disk| <= m.maximumInMap <= 63
    ensures (forall c :: c in commands ==> !c.ResizeCommand?) ==> Owned(m.Model())
  {
    m := InitPartitionMap(size);
    var own := m.maximumInMap;
    InitManaged(m.Model(), own, m.mediaSize - 1 - own);
    ghost var states, ids := Edit(m, commands);
    SessionKeeps(states, commands, ids, |commands|);
    if forall c :: c in commands ==> !c.ResizeCommand? {
      SessionOwned(states, commands, ids, |commands|);
    }
  }
}
