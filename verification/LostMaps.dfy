/**
 A session that loses the entry for the map itself.  The capacity is taken from
 the first map entry ever added and never refreshed, so after the entry has grown
 a resize that passes its checks may be refused in the middle.
 */
module LostMaps {
  import opened Words
  import opened Seqs
  import opened MapModel
  import opened Geometry
  import opened Views
  import opened Allocation
  import opened MapTheorems
  import opened MapResize
  import opened PartitionMaps
  import opened Sessions

  const UNIX := OtherType("Apple_UNIX_SVR2")

  /** The commands: grow the map entry to 9 blocks, use up the rest, shrink it to 5. */
  const COMMANDS := [ResizeCommand(9), CreateCommand("root", UNIX, 10, 90), ResizeCommand(5)]

  /** A map that init_partition_map makes on a disk of 100 blocks. */
  ghost predicate New<Id>(s: State<Id>) {
    && WF(s) && |s.disk| == |s.base| == 2 && s.maximum == 2 && s.media == 100 && s.drivers == []
    && BaseView(s) == [NewMapEntry(2), Sized(FreeData(1, 99).(flags := BLANK_FLAGS), 3, 97)]
  }

  lemma ResizeFixed<Id>(s: State<Id>, newSize: int, ids: seq<Id>)
    requires Managed(s) && 0 <= s.maximum && FreshIds(s, ids, ResizeAllocates(s, newSize))
    ensures var r := Resize(s, newSize, ids);
      && WF(r) && r.drivers == s.drivers && r.media == s.media && r.maximum == s.maximum && Managed(r)
  {
    hide Coherent, NoDup, Elements, View, Create, Delete, Conserves, Coalesced, Sound, Covers;
    ResizeStep(s, newSize, ids);
    if ResizeStarts(BaseView(s), newSize) {
      var k := MapIndex(BaseView(s));
      var id := s.base[k];
      UpdateViews(s, k, BaseView(s)[k].(ptype := OtherType("")));
      DeleteFixed(s.(data := s.data[id := s.data[id].(ptype := OtherType(""))]), id);
      CreateFixed(ResizeMiddle(s), "Apple", MapType, 1, ToU32(newSize), ids);
    }
  }

  /** The map entry and one other, [10, 100), with the capacity of a new map. */
  ghost predicate Two<Id>(s: State<Id>, own: u32, other: Dpme) {
    && Managed(s) && |s.base| == |s.disk| == 2 && s.maximum == 2 && s.drivers == []
    && other.start == 10 && other.blocks == 90 && BaseView(s) == [NewMapEntry(own), other]
  }

  lemma Grown<Id>(s: State<Id>, ids: seq<Id>)
    requires New(s) && FreshIds(s, ids, ResizeAllocates(s, 9))
    ensures Two(Resize(s, 9, ids), 9, FreeData(10, 90))
  {
    hide Coherent, NoDup, Elements, View, Resize, Conserves, Resized, ResizeAllocates, Sound, Covers;
    GrownView(s);
    ResizeEffect(s, 9, ids);
    ResizeFixed(s, 9, ids);
    SameSize(Resize(s, 9, ids));
    hide Managed;
  }

  lemma GrownView<Id>(s: State<Id>)
    requires New(s)
    ensures Resizing(s, 9) && Managed(s) && Resized(s, 9) == [NewMapEntry(9), FreeData(10, 90)]
  {
    hide Coherent, NoDup, Elements, View;
    assert MapIndex(BaseView(s)) == 0;
  }

  lemma Filled<Id>(s: State<Id>, ids: seq<Id>)
    requires Two(s, 9, FreeData(10, 90)) && FreshIds(s, ids, Allocates(s, 10, 90))
    ensures Two(Create(s, "root", UNIX, 10, 90, ids), 9, CreateData("root", UNIX, 10, 90))
  {
    hide Coherent, NoDup, Elements, View, Create;
    HolderUnique(BaseView(s), 10, 90, 1);
    CreateEffect(s, "root", UNIX, 10, 90, ids);
    CreateFixed(s, "root", UNIX, 10, 90, ids);
    CreateStep(s, "root", UNIX, 10, 90, ids);
  }

  lemma Lost<Id>(s: State<Id>, ids: seq<Id>)
    requires Two(s, 9, CreateData("root", UNIX, 10, 90)) && FreshIds(s, ids, ResizeAllocates(s, 5))
    ensures MapIndex(BaseView(Resize(s, 5, ids))) == |BaseView(Resize(s, 5, ids))|
  {
    hide Coherent, NoDup, Elements, View, Resize;
    assert MapIndex(BaseView(s)) == 0;
    ResizeEffect(s, 5, ids);
  }

  /** A name for a new entry. */
  function NewName(s: seq<nat>): (n: nat)
    ensures forall i :: 0 <= i < |s| ==> s[i] < n
  {
    if s == [] then 0
    else
      var n := NewName(s[..|s| - 1]);
      if n <= s[|s| - 1] then s[|s| - 1] + 1 else n
  }

  /** Names for the entries that a command allocates. */
  lemma FreshNames(s: State<nat>, n: nat) returns (ids: seq<nat>)
    requires WF(s)
    ensures FreshIds(s, ids, n)
  {
    var first := NewName(s.base);
    ids := seq(n, i requires 0 <= i < n => first + i);
    forall x | x in ids ensures x !in s.data {
      ElementIn(s.base, x);
    }
  }

  /** There is such a session, and its commands are proper. */
  lemma SessionCanLoseMap()
    ensures exists states: seq<State<nat>>, ids :: Session(states, COMMANDS, ids) && New(states[0])
    ensures forall c :: c in COMMANDS ==> Proper(c)
  {
    hide FreshIds, Step, StepAllocates, New;
    var s0 := NewMap();
    var ids0 := FreshNames(s0, StepAllocates(s0, COMMANDS[0]));
    var s1 := Step(s0, COMMANDS[0], ids0);
    var ids1 := FreshNames(s1, StepAllocates(s1, COMMANDS[1]));
    var s2 := Step(s1, COMMANDS[1], ids1);
    var ids2 := FreshNames(s2, StepAllocates(s2, COMMANDS[2]));
    var s3 := Step(s2, COMMANDS[2], ids2);
    assert Session([s0, s1, s2, s3], COMMANDS, [ids0, ids1, ids2]);
  }

  lemma FirstStep<Id>(s: State<Id>, ids: seq<Id>)
    requires New(s) && FreshIds(s, ids, StepAllocates(s, COMMANDS[0]))
    ensures Two(Step(s, COMMANDS[0], ids), 9, FreeData(10, 90))
  {
    hide New, Two, FreshIds, Resize, ResizeAllocates;
    Grown(s, ids);
  }

  lemma SecondStep<Id>(s: State<Id>, ids: seq<Id>)
    requires WF(s) && Two(s, 9, FreeData(10, 90)) && FreshIds(s, ids, StepAllocates(s, COMMANDS[1]))
    ensures Two(Step(s, COMMANDS[1], ids), 9, CreateData("root", UNIX, 10, 90))
  {
    hide Two, FreshIds, Create, Allocates;
    Filled(s, ids);
  }

  lemma ThirdStep<Id>(s: State<Id>, ids: seq<Id>)
    requires WF(s) && Two(s, 9, CreateData("root", UNIX, 10, 90)) && FreshIds(s, ids, StepAllocates(s, COMMANDS[2]))
    ensures var r := Step(s, COMMANDS[2], ids); MapIndex(BaseView(r)) == |r.base|
  {
    hide Two, FreshIds, Resize, ResizeAllocates;
    Lost(s, ids);
  }

  /** These commands take every new map to one that has no entry for itself. */
  lemma SessionLosesMap<Id>(states: seq<State<Id>>, ids: seq<seq<Id>>)
    requires Session(states, COMMANDS, ids) && New(states[0])
    ensures WF(states[3]) && MapIndex(BaseView(states[3])) == |states[3].base|
  {
    hide Two, New, Step, StepAllocates, FreshIds;
    FirstStep(states[0], ids[0]);
    SecondStep(states[1], ids[1]);
    ThirdStep(states[2], ids[2]);
  }

  /** The same, run by the editor on a disk of 100 blocks. */
  method LoseMap() returns (m: PartitionMap)
    ensures m.Valid() && MapIndex(BaseView(m.Model())) == |m.base|
  {
    m := InitPartitionMap(100);
    NewIs(m.Model());
    ghost var states, ids := Edit(m, COMMANDS);
    hide *;
    SessionLosesMap(states, ids);
  }

  lemma NewIs<Id>(s: State<Id>)
    requires WF(s) && s.maximum == 2 && s.media == 100 && s.drivers == []
    requires BaseView(s) == [
      CreateData("Apple", MapType, 1, 2), Sized(FreeData(1, 99).(flags := BLANK_FLAGS), 3, 97)]
    ensures New(s)
  {
  }

  lemma NewMap() returns (s: State<nat>)
    ensures New(s) && WF(s)
  {
    var own, rest := NewMapEntry(2), FreeData(3, 97).(flags := BLANK_FLAGS);
    s := State([0, 1], [0, 1], map[0 := own, 1 := rest], 2, 100, []);
    assert Elements(s.disk) == {0, 1} by { ElementsAre(s.disk); }
    assert BaseView(s) == [own, rest];
  }
}
