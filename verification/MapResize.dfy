/** Resizing the partition map itself: deleting its entry and creating it again. */
module MapResize {
  import opened Words
  import opened Seqs
  import opened MapModel
  import opened Geometry
  import opened Views
  import opened Allocation
  import opened MapTheorems

  /** A sound map whose own entry starts at block 1, and a size that passes the checks. */
  ghost predicate Resizable(v: seq<Dpme>, newSize: int) {
    Sound(v) && MapIndex(v) < |v| && v[MapIndex(v)].start == 1 && ResizeStarts(v, newSize)
  }

  /** The same for a whole map, with no driver inside its own entry. */
  ghost predicate Resizing<Id>(s: State<Id>, newSize: int) {
    && WF(s) && Resizable(BaseView(s), newSize)
    && !ContainsDriver(s.drivers, BaseView(s)[MapIndex(BaseView(s))])
  }

  /** The entry after the map's own one is free and contiguous. */
  predicate OwnMerges(v: seq<Dpme>)
    requires MapIndex(v) < |v|
  {
    var k := MapIndex(v);
    k + 1 < |v| && v[k + 1].ptype == FreeType && End(v[k]) == v[k + 1].start
  }

  /** How many entries the map has after a resize that keeps its own entry. */
  function EntriesAfter(v: seq<Dpme>, newSize: int): int
    requires MapIndex(v) < |v|
  {
    var k := MapIndex(v);
    if !OwnMerges(v) then |v| + 1
    else if newSize == v[k].blocks + v[k + 1].blocks then |v| - 1
    else |v|
  }

  // The entries that the first half of a resize merges with the map's own one.

  function Low(v: seq<Dpme>): (lo: nat)
    requires MapIndex(v) < |v|
    ensures lo == MapIndex(v) || lo + 1 == MapIndex(v)
  {
    MergeLow(v, MapIndex(v))
  }

  function High(v: seq<Dpme>): (hi: nat)
    requires MapIndex(v) < |v|
    ensures (hi == MapIndex(v) || hi == MapIndex(v) + 1) && hi < |v|
  {
    MergeHigh(v, MapIndex(v))
  }

  /** The free entry between the two halves of a resize. */
  ghost function Released(v: seq<Dpme>): Dpme
    requires MapIndex(v) < |v| && Sound(v)
  {
    MergedTiles(v, MapIndex(v));
    Merged(v, Low(v), High(v))
  }

  /** Base order between the two halves. */
  ghost function Middle(v: seq<Dpme>): seq<Dpme>
    requires MapIndex(v) < |v| && Sound(v)
  {
    Splice(v, Low(v), High(v) + 1, [Released(v)])
  }

  /** Base order with the entry `made` cut from what was released. */
  ghost function Remade(v: seq<Dpme>, made: Dpme): seq<Dpme>
    requires MapIndex(v) < |v| && Sound(v)
    requires Released(v).start <= made.start && End(made) <= End(Released(v)) < U32
  {
    Splice(v, Low(v), High(v) + 1, Pieces(Released(v), made))
  }

  /** The names above, in terms of the merge that a delete makes. */
  lemma Parts(v: seq<Dpme>)
    requires Sound(v) && MapIndex(v) < |v|
    ensures Low(v) == MergeLow(v, MapIndex(v)) && High(v) == MergeHigh(v, MapIndex(v))
    ensures v[Low(v)].start <= End(v[High(v)]) < U32
    ensures Released(v) == Merged(v, Low(v), High(v))
    ensures Middle(v) == Splice(v, Low(v), High(v) + 1, [Released(v)])
  {
    MergedTiles(v, MapIndex(v));
    hide Sound, Tiles, MapIndex, MergeLow, MergeHigh, Merged, Splice;
  }

  lemma MergedIs(v: seq<Dpme>, lo: nat, hi: nat)
    requires lo <= hi < |v| && v[lo].start <= End(v[hi]) < U32
    ensures Merged(v, lo, hi).start == v[lo].start && End(Merged(v, lo, hi)) == End(v[hi])
    ensures Merged(v, lo, hi).ptype == FreeType && Merged(v, lo, hi).lstart == 0
  {
  }

  lemma BlankSound(v: seq<Dpme>, k: nat, blank: Dpme)
    requires Sound(v) && k < |v| && blank.start == v[k].start && blank.blocks == v[k].blocks
    ensures Sound(v[k := blank])
    ensures MergeLow(v[k := blank], k) == MergeLow(v, k) && MergeHigh(v[k := blank], k) == MergeHigh(v, k)
  {
  }

  lemma BlankSplice(v: seq<Dpme>, lo: nat, k: nat, hi: nat, blank: Dpme)
    requires lo <= k <= hi < |v| && blank.start == v[k].start && blank.blocks == v[k].blocks
    requires v[lo].start <= End(v[hi]) < U32
    ensures var w := v[k := blank];
      && w[lo].start <= End(w[hi]) < U32
      && Splice(w, lo, hi + 1, [Merged(w, lo, hi)]) == Splice(v, lo, hi + 1, [Merged(v, lo, hi)])
  {
    assert v[k := blank][..lo] == v[..lo] && v[k := blank][hi + 1..] == v[hi + 1..];
  }

  /** Blanking the type of an entry changes neither what a delete merges nor the result. */
  lemma BlankMerges(v: seq<Dpme>, blank: Dpme)
    requires Sound(v) && MapIndex(v) < |v|
    requires blank.start == v[MapIndex(v)].start && blank.blocks == v[MapIndex(v)].blocks
    ensures var k := MapIndex(v); var w := v[k := blank]; var lo, hi := MergeLow(w, k), MergeHigh(w, k);
      && Sound(w) && w[lo].start <= End(w[hi]) < U32
      && Splice(w, lo, hi + 1, [Merged(w, lo, hi)]) == Middle(v)
  {
    hide *;
    Parts(v);
    BlankSound(v, MapIndex(v), blank);
    BlankSplice(v, Low(v), MapIndex(v), High(v), blank);
  }

  lemma BlankDriver(drivers: seq<Driver>, d: Dpme, blank: Dpme)
    requires blank.start == d.start && blank.blocks == d.blocks
    ensures ContainsDriver(drivers, blank) == ContainsDriver(drivers, d)
  {
  }

  /** After the first half, one free entry holds the blocks of the map's entry and those next to it. */
  lemma ResizeMiddleEffect<Id>(s: State<Id>)
    requires WF(s) && Sound(BaseView(s)) && MapIndex(BaseView(s)) < |s.base|
    requires !ContainsDriver(s.drivers, BaseView(s)[MapIndex(BaseView(s))])
    ensures BaseView(ResizeMiddle(s)) == Middle(BaseView(s))
    ensures ResizeMiddle(s).maximum == s.maximum && ResizeMiddle(s).media == s.media
  {
    hide Sound, Coherent, Elements, NoDup, View, Splice, MergeHigh, MergeLow, ContainsDriver, Merged, Middle, MapIndex,
        Delete, End;
    var v, k := BaseView(s), MapIndex(BaseView(s));
    var blank := v[k].(ptype := OtherType(""));
    UpdateViews(s, k, blank);
    BlankMerges(v, blank);
    BlankDriver(s.drivers, v[k], blank);
    DeleteEffect(s.(data := s.data[s.base[k] := blank]), k);
    DeleteFixed(s.(data := s.data[s.base[k] := blank]), s.base[k]);
  }

  lemma CreateFixed<Id>(s: State<Id>, name: string, ptype: PartType, b: u32, len: u32, ids: seq<Id>)
    requires WF(s) && FreshIds(s, ids, Allocates(s, b, len))
    ensures var r := Create(s, name, ptype, b, len, ids); r.drivers == s.drivers && r.media == s.media
  {
    hide Coherent, NoDup, Elements, View;
  }

  lemma DeleteFixed<Id>(s: State<Id>, id: Id)
    requires WF(s) && id in s.data
    ensures var r := Delete(s, id); r.maximum == s.maximum && r.media == s.media && r.drivers == s.drivers
  {
    hide Coherent, NoDup, Elements, View;
  }

  /** What is released tiles what was merged. */
  lemma ReleasedTiles(v: seq<Dpme>)
    requires Sound(v) && MapIndex(v) < |v|
    ensures Released(v).start == v[Low(v)].start && End(Released(v)) == End(v[High(v)])
    ensures Released(v).ptype == FreeType && Released(v).lstart == 0
    ensures Tiles(v[Low(v)..High(v) + 1], Released(v).start, End(Released(v)))
  {
    hide *;
    Parts(v);
    MergedTiles(v, MapIndex(v));
    MergedIs(v, Low(v), High(v));
  }

  /** What is released ends where the map's own entry or the free one after it did, and starts by block 1. */
  lemma ReleasedEnds(v: seq<Dpme>)
    requires Sound(v) && MapIndex(v) < |v| && v[MapIndex(v)].start == 1
    ensures var k := MapIndex(v);
      && Released(v).ptype == FreeType
      && Released(v).start == (if Low(v) < k then 0 else 1)
      && End(Released(v)) == (if OwnMerges(v) then v[k].blocks + v[k + 1].blocks else v[k].blocks) + 1
      && High(v) == (if OwnMerges(v) then k + 1 else k)
      && 0 < v[k].blocks && End(Released(v)) < U32
  {
    hide Released, MapIndex, Sound;
    ReleasedTiles(v);
    MergeTouches(v, MapIndex(v));
    SoundAt(v, MapIndex(v));
  }

  lemma SoundAt(v: seq<Dpme>, k: nat)
    requires Sound(v) && k < |v|
    ensures 0 < v[k].blocks && End(v[k]) < U32
  {
  }

  lemma MiddleSound(v: seq<Dpme>)
    requires Sound(v) && MapIndex(v) < |v|
    ensures Sound(Middle(v)) && |Middle(v)| == |v| - (High(v) - Low(v)) && Middle(v)[Low(v)] == Released(v)
  {
    hide *;
    Parts(v);
    MergedTiles(v, MapIndex(v));
    SpliceSound(v, Low(v), High(v) + 1, [Released(v)], v[Low(v)].start, End(v[High(v)]));
    SpliceAt(v, Low(v), High(v) + 1, [Released(v)]);
  }

  /** On what the first half leaves, the request for the new map entry fits the released entry. */
  lemma ReleasedHolds(v: seq<Dpme>, newSize: int)
    requires Resizable(v, newSize)
    ensures 0 < newSize && 1 + newSize <= End(Released(v)) < U32 && Released(v).start <= 1
    ensures Sound(Middle(v)) && Holder(Middle(v), 1, newSize) == Low(v) < |Middle(v)|
    ensures Middle(v)[Low(v)] == Released(v)
    ensures |Middle(v)| + Cost(ActionFor(Released(v), 1, newSize)) == EntriesAfter(v, newSize)
  {
    ReleasedEnds(v);
    MiddleSound(v);
    hide MapIndex, Released, Middle, Low, High;
    assert Holds(Middle(v)[Low(v)], 1, newSize);
    HolderUnique(Middle(v), 1, newSize, Low(v));
  }

  /** The second half is granted exactly when the map has room for the entries it ends with. */
  lemma ResizeAccepted<Id>(s: State<Id>, newSize: int)
    requires Resizing(s, newSize)
    ensures 0 < newSize && 1 + newSize < U32
    ensures Accepts(ResizeMiddle(s), 1, newSize) <==> EntriesAfter(BaseView(s), newSize) <= Limit(s)
  {
    hide Sound, Elements, NoDup, View, Splice, ContainsDriver, ResizeStarts, ResizeMiddle, ActionFor, EntriesAfter,
        Middle, Low, High, Released;
    ResizeMiddleEffect(s);
    ReleasedHolds(BaseView(s), newSize);
    ReleasedEnds(BaseView(s));
  }

  function NewMapEntry(newSize: u32): Dpme {
    CreateData("Apple", MapType, 1, newSize)
  }

  /** What base order holds after a resize that got past its checks. */
  ghost function Resized<Id>(s: State<Id>, newSize: int): seq<Dpme>
    requires Resizing(s, newSize)
  {
    ReleasedHolds(BaseView(s), newSize);
    var v := BaseView(s);
    if EntriesAfter(v, newSize) <= Limit(s) then Remade(v, NewMapEntry(newSize)) else Middle(v)
  }

  lemma SpliceTwice<T>(v: seq<T>, lo: nat, hi: nat, x: T, p: seq<T>)
    requires lo <= hi <= |v|
    ensures Splice(Splice(v, lo, hi, [x]), lo, lo + 1, p) == Splice(v, lo, hi, p)
  {
    var w := Splice(v, lo, hi, [x]);
    assert w[..lo] == v[..lo] && w[lo + 1..] == v[hi..];
  }

  lemma ResizeEffect<Id>(s: State<Id>, newSize: int, ids: seq<Id>)
    requires Resizing(s, newSize) && FreshIds(s, ids, ResizeAllocates(s, newSize))
    ensures BaseView(Resize(s, newSize, ids)) == Resized(s, newSize)
  {
    hide Sound, Elements, NoDup, View, Splice, ContainsDriver, ResizeStarts, ResizeMiddle, ActionFor,
        EntriesAfter, Accepts, Pieces, Create, Released, Low, High;
    ReleasedHolds(BaseView(s), newSize);
    ResizeMiddleEffect(s);
    ResizeAccepted(s, newSize);
    var m, v := ResizeMiddle(s), BaseView(s);
    if Accepts(m, 1, newSize) {
      CreateEffect(m, "Apple", MapType, 1, newSize, ids);
      SpliceTwice(v, Low(v), High(v) + 1, Released(v), Pieces(Released(v), NewMapEntry(newSize)));
    } else {
      CreateRefused(m, "Apple", MapType, 1, newSize, ids);
    }
  }

  lemma CreateRefused<Id>(s: State<Id>, name: string, ptype: PartType, b: u32, len: u32, ids: seq<Id>)
    requires WF(s) && !Accepts(s, b, len) && FreshIds(s, ids, Allocates(s, b, len))
    ensures Create(s, name, ptype, b, len, ids) == s
  {
  }

  lemma PartsFree(v: seq<Dpme>)
    requires MapIndex(v) < |v|
    ensures Low(v) < MapIndex(v) ==> v[Low(v)].ptype == FreeType
    ensures MapIndex(v) < High(v) ==> v[High(v)].ptype == FreeType
  {
    hide MapIndex;
  }

  /** Only the map's own entry and free ones are exchanged. */
  lemma ExchangeUsed(v: seq<Dpme>, p: seq<Dpme>)
    requires MapIndex(v) < |v|
    ensures Used(Splice(v, Low(v), High(v) + 1, p))
         == Used(v[..MapIndex(v)]) + Used(p) + Used(v[MapIndex(v) + 1..])
  {
    hide *;
    PartsFree(v);
    MergeUsed(v, MapIndex(v), Low(v), High(v), p);
  }

  lemma PiecesWhole(d: Dpme, made: Dpme)
    requires d.start <= made.start && End(made) <= End(d) < U32
    requires d.lstart == 0 && made.lstart == 0 && made.lblocks == made.blocks
    ensures Whole(Pieces(d, made))
  {
  }

  /** Cutting the new map entry from the released one conserves the blocks of the map. */
  lemma RemadeConserves(v: seq<Dpme>, made: Dpme)
    requires Sound(v) && MapIndex(v) < |v| && made.lstart == 0 && made.lblocks == made.blocks && 0 < made.blocks
    requires Released(v).start <= made.start && End(made) <= End(Released(v)) < U32
    ensures Conserves(v, Remade(v, made))
  {
    hide MapIndex, Sound, Tiles, MergeLow, MergeHigh, Conserves, Pieces, Splice, Released, Low, High, Whole;
    ReleasedTiles(v);
    PiecesTile(Released(v), made);
    PiecesWhole(Released(v), made);
    SpliceConserves(v, Low(v), High(v) + 1, Pieces(Released(v), made), Released(v).start, End(Released(v)));
  }

  lemma RemadeCoalesced(v: seq<Dpme>, made: Dpme)
    requires Sound(v) && MapIndex(v) < |v| && Coalesced(v) && made.ptype != FreeType && 0 < made.blocks
    requires Released(v).start <= made.start && End(made) <= End(Released(v)) < U32
    ensures Coalesced(Remade(v, made))
  {
    RemadeIs(v, made);
    hide *;
    Parts(v);
    MiddleSound(v);
    ReleasedTiles(v);
    MergeCoalesced(v, MapIndex(v));
    CutCoalesced(Middle(v), Low(v), made);
  }

  lemma RemadeIs(v: seq<Dpme>, made: Dpme)
    requires Sound(v) && MapIndex(v) < |v|
    requires Released(v).start <= made.start && End(made) <= End(Released(v)) < U32
    ensures Low(v) < |Middle(v)|
    ensures Remade(v, made) == Splice(Middle(v), Low(v), Low(v) + 1, Pieces(Released(v), made))
  {
    hide Sound, MapIndex, Released, Low, High, Pieces, Splice;
    MiddleSound(v);
    SpliceTwice(v, Low(v), High(v) + 1, Released(v), Pieces(Released(v), made));
  }

  /** Where the new map entry lands, and how many entries there are then. */
  lemma RemadePlace(v: seq<Dpme>, newSize: int)
    requires Resizable(v, newSize) && 0 < newSize && 1 + newSize <= End(Released(v)) < U32 && Released(v).start <= 1
    ensures var w := Remade(v, NewMapEntry(newSize)); var k := MapIndex(v);
      k < |w| == EntriesAfter(v, newSize) && w[k] == NewMapEntry(newSize)
  {
    ReleasedEnds(v);
    hide Sound, MapIndex, Released, Low, High;
    var p := Pieces(Released(v), NewMapEntry(newSize));
    assert |p| == (if Low(v) < MapIndex(v) then 2 else 1) + (if 1 + newSize < End(Released(v)) then 1 else 0);
    assert p[MapIndex(v) - Low(v)] == NewMapEntry(newSize);
  }

  /** Everything about the case in which the second half is granted. */
  lemma RemadeKeeps(v: seq<Dpme>, newSize: int)
    requires Resizable(v, newSize) && 0 < newSize && 1 + newSize <= End(Released(v)) < U32 && Released(v).start <= 1
    ensures var made := NewMapEntry(newSize); var w := Remade(v, made); var k := MapIndex(v);
      && k < |w| == EntriesAfter(v, newSize) && w[k] == made
      && Used(w) == Used(v[..k]) + [made] + Used(v[k + 1..])
      && Conserves(v, w) && (Coalesced(v) ==> Coalesced(w))
  {
    hide Sound, Conserves, Coalesced, Pieces, ResizeStarts, EntriesAfter, Splice, Released, Low, High, Used, MapIndex;
    var made := NewMapEntry(newSize);
    ExchangeUsed(v, Pieces(Released(v), made));
    ReleasedTiles(v);
    UsedPieces(Released(v), made);
    RemadePlace(v, newSize);
    RemadeConserves(v, made);
    if Coalesced(v) {
      RemadeCoalesced(v, made);
    }
  }

  /** Everything about the case in which it is refused. */
  lemma MiddleKeeps(v: seq<Dpme>)
    requires Sound(v) && MapIndex(v) < |v|
    ensures var k := MapIndex(v);
      && Used(Middle(v)) == Used(v[..k]) + Used(v[k + 1..])
      && Conserves(v, Middle(v)) && (Coalesced(v) ==> Coalesced(Middle(v)))
  {
    hide Sound, Conserves, Coalesced, Splice, Used, MapIndex, MergeLow, MergeHigh, Tiles, Merged;
    ReleasedTiles(v);
    ExchangeUsed(v, [Released(v)]);
    UsedOne(Released(v));
    MergeConserves(v, MapIndex(v));
    if Coalesced(v) {
      MergeCoalesced(v, MapIndex(v));
    }
  }

  lemma ResizedIs<Id>(s: State<Id>, newSize: int)
    requires Resizing(s, newSize)
    ensures Resizable(BaseView(s), newSize) && Sound(BaseView(s)) && MapIndex(BaseView(s)) < |BaseView(s)|
    ensures var v := BaseView(s);
      && 0 < newSize && 1 + newSize <= End(Released(v)) < U32 && Released(v).start <= 1
      && Resized(s, newSize) ==
         if EntriesAfter(v, newSize) <= Limit(s) then Remade(v, NewMapEntry(newSize)) else Middle(v)
  {
    hide Sound, Coherent, NoDup, Elements, View, ResizeStarts, EntriesAfter, Released, MapIndex, Middle, Remade;
    ReleasedHolds(BaseView(s), newSize);
  }

  /**
   A resize that gets past its checks ends with the map's own entry being exactly
   [1, 1 + newSize), at its old place, and every other partition in use as it was, if
   and only if the capacity of the map admits the number of entries it ends with;
   otherwise the map has lost its own entry.  Either way the blocks are conserved.
   */
  lemma ResizeIff<Id>(s: State<Id>, newSize: int, ids: seq<Id>)
    requires Resizing(s, newSize) && FreshIds(s, ids, ResizeAllocates(s, newSize))
    ensures 0 < newSize < U32
    ensures var v, w := BaseView(s), BaseView(Resize(s, newSize, ids)); var k := MapIndex(v);
      && k < |v| && Conserves(v, w) && (Coalesced(v) ==> Coalesced(w))
      && if EntriesAfter(v, newSize) <= Limit(s) then
           && k < |w| == EntriesAfter(v, newSize) && w[k] == NewMapEntry(newSize)
           && Used(w) == Used(v[..k]) + [NewMapEntry(newSize)] + Used(v[k + 1..])
         else
           Used(w) == Used(v[..k]) + Used(v[k + 1..])
  {
    hide Sound, Coherent, NoDup, Elements, View, Conserves, Coalesced, Resizable, ResizeStarts, ContainsDriver,
        Resize, Resized, EntriesAfter, Released, Used, MapIndex, Middle, Remade;
    var v := BaseView(s);
    ResizedIs(s, newSize);
    ResizeEffect(s, newSize, ids);
    if EntriesAfter(v, newSize) <= Limit(s) {
      RemadeKeeps(v, newSize);
    } else {
      MiddleKeeps(v);
    }
  }

  /** With a driver inside the map's own entry, a resize only takes away its type. */
  lemma ResizeRefused<Id>(s: State<Id>, newSize: int, ids: seq<Id>)
    requires WF(s) && Resizable(BaseView(s), newSize) && FreshIds(s, ids, ResizeAllocates(s, newSize))
    requires ContainsDriver(s.drivers, BaseView(s)[MapIndex(BaseView(s))])
    ensures var v, k := BaseView(s), MapIndex(BaseView(s));
      BaseView(Resize(s, newSize, ids)) == v[k := v[k].(ptype := OtherType(""))]
  {
    hide Coherent, Elements, NoDup, View, ContainsDriver, ResizeStarts;
    var v, k := BaseView(s), MapIndex(BaseView(s));
    var blank := v[k].(ptype := OtherType(""));
    UpdateViews(s, k, blank);
    BlankDriver(s.drivers, v[k], blank);
    BlankHolder(v, newSize, blank);
    CreateRefused(ResizeMiddle(s), "Apple", MapType, 1, newSize, ids);
  }

  /** Nothing but the blanked entry can hold the request for the new map entry. */
  lemma BlankHolder(v: seq<Dpme>, newSize: int, blank: Dpme)
    requires Resizable(v, newSize) && blank.start == v[MapIndex(v)].start && blank.blocks == v[MapIndex(v)].blocks
    ensures 0 < newSize && 1 + newSize < U32
    ensures var k := MapIndex(v); var h := Holder(v[k := blank], 1, newSize); h == |v| || h == k
  {
    ReleasedEnds(v);
    hide Released, Low, High;
    var w, k := v[MapIndex(v) := blank], MapIndex(v);
    forall j | 0 <= j < |w| && j != k ensures !Holds(w[j], 1, newSize) {
      assert j < k ==> End(v[j]) <= v[k].start;
      assert k < j ==> End(v[k]) <= v[j].start;
    }
    assert forall j :: 0 <= j < |w| && Holds(w[j], 1, newSize) ==> j == k;
  }

  // ----- a map entry that starts anywhere

  /** The request for a new map entry of this size is granted on the entries `m`, of which at most `limit` fit. */
  predicate Admits(m: seq<Dpme>, newSize: int, limit: int) {
    && 0 < |m| && m[0].start == 1 && m[0].ptype == FreeType && 0 < newSize && 1 + newSize <= End(m[0]) < U32
    && |m| + Cost(ActionFor(m[0], 1, newSize)) <= limit
  }

  /** On a map above block 0, only the first entry can hold a request that starts at block 1. */
  lemma FirstHolds(m: seq<Dpme>, newSize: u32)
    requires Sound(m) && !Covers(m, 0) && 0 < newSize && 1 + newSize < U32
    ensures Holder(m, 1, newSize) == if 0 < |m| && m[0].start == 1 && 1 + newSize <= End(m[0]) then 0 else |m|
  {
    forall j | 0 <= j < |m| ensures Holds(m[j], 1, newSize) ==> j == 0 && m[0].start == 1 {
      assert m[j].start == 0 ==> Covers(m, 0);
      assert 0 < j ==> End(m[0]) <= m[j].start;
    }
    HolderUnique(m, 1, newSize, if 0 < |m| && m[0].start == 1 && 1 + newSize <= End(m[0]) then 0 else |m|);
  }

  lemma MiddleAbove(v: seq<Dpme>)
    requires Sound(v) && !Covers(v, 0) && MapIndex(v) < |v|
    ensures Sound(Middle(v)) && !Covers(Middle(v), 0)
  {
    MiddleKeeps(v);
    hide Middle, MapIndex;
  }

  /**
   Wherever the map's own entry starts, a resize that gets past its checks ends with one
   at block 1 exactly if what the first half leaves admits it there: then it is the first
   entry, cut from the free one; otherwise the map has lost its own entry.
   */
  lemma ResizeAnywhere<Id>(s: State<Id>, newSize: int, ids: seq<Id>)
    requires WF(s) && Sound(BaseView(s)) && !Covers(BaseView(s), 0) && ResizeStarts(BaseView(s), newSize)
    requires !ContainsDriver(s.drivers, BaseView(s)[MapIndex(BaseView(s))])
    requires FreshIds(s, ids, ResizeAllocates(s, newSize))
    ensures 0 < newSize < U32
    ensures var m, w := Middle(BaseView(s)), BaseView(Resize(s, newSize, ids));
      if Admits(m, newSize, Limit(s)) then
        w == Pieces(m[0], NewMapEntry(newSize)) + m[1..] && w[0] == NewMapEntry(newSize)
      else
        w == m
  {
    hide Sound, Coherent, NoDup, Elements, View, ContainsDriver, Middle, Create, Pieces, Covers, Splice, ActionFor,
        ResizeMiddle;
    var v := BaseView(s);
    ResizeMiddleEffect(s);
    ResizeProper(v, newSize);
    MiddleAbove(v);
    var r, m := ResizeMiddle(s), Middle(v);
    FirstHolds(m, newSize);
    SameSize(r);
    MiddleStands(m, newSize);
    if Accepts(r, 1, newSize) {
      CreateEffect(r, "Apple", MapType, 1, newSize, ids);
      SpliceFirst(m, Pieces(m[0], NewMapEntry(newSize)));
      PiecesFirst(m[0], NewMapEntry(newSize));
    } else {
      CreateRefused(r, "Apple", MapType, 1, newSize, ids);
    }
  }

  lemma MiddleStands(m: seq<Dpme>, newSize: int)
    requires Sound(m)
    ensures 0 < |m| ==> End(m[0]) < U32
  {
  }

  lemma SpliceFirst<T>(m: seq<T>, p: seq<T>)
    requires 0 < |m|
    ensures Splice(m, 0, 1, p) == p + m[1..]
  {
  }

  lemma PiecesFirst(d: Dpme, made: Dpme)
    requires d.start == made.start && End(made) <= End(d) < U32
    ensures Pieces(d, made) != [] && Pieces(d, made)[0] == made
  {
  }

  /** While the capacity is the size of the map's own entry, no resize that passes its checks loses it. */
  lemma ResizeFits<Id>(s: State<Id>, newSize: int)
    requires Resizing(s, newSize)
    requires Limit(s) == BaseView(s)[MapIndex(BaseView(s))].blocks && |s.base| <= Limit(s)
    ensures EntriesAfter(BaseView(s), newSize) <= Limit(s)
  {
  }

  /**
   The resized map has room for its own entries, except when it shrinks to the bare
   number of entries in front of a free entry it does not touch.
   */
  lemma ResizeRoom(v: seq<Dpme>, newSize: int)
    requires Sound(v) && ResizeStarts(v, newSize) && |v| <= v[MapIndex(v)].blocks
    ensures var k := MapIndex(v);
      EntriesAfter(v, newSize) <= newSize
      <==> !(newSize == |v| && k + 1 < |v| && v[k + 1].ptype == FreeType && !OwnMerges(v))
  {
  }
}
