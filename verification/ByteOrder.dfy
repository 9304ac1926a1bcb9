/**
 What converted blocks hold, byte for byte (convert.c, dpme.h): every field that a
 block has is read with the value that its bytes have in big-endian order.
 */
module ByteOrder {
  import opened Words
  import opened Convert
  import opened ByteFiles

  /** The value of a field on the disk. */
  function Big2(s: seq<u8>, i: nat): int
    requires i + 2 <= |s|
  {
    var b0: int, b1: int := s[i], s[i + 1];
    0x100 * b0 + b1
  }

  function Big4(s: seq<u8>, i: nat): int
    requires i + 4 <= |s|
  {
    0x1_0000 * Big2(s, i) + Big2(s, i + 2)
  }

  /** The two-byte field at `i` changes hands: each side reads in its order what the other one has. */
  predicate Turned2(r: seq<u8>, s: seq<u8>, i: nat)
    requires |r| == |s| && i + 2 <= |s|
  {
    Get2(r, i) == Big2(s, i) && Big2(r, i) == Get2(s, i)
  }

  predicate Turned4(r: seq<u8>, s: seq<u8>, i: nat)
    requires |r| == |s| && i + 4 <= |s|
  {
    Get4(r, i) == Big4(s, i) && Big4(r, i) == Get4(s, i)
  }

  // ----- what flipping fields does to them

  lemma {:induction false} MirrorIn(fs: seq<Field>, f: Field, k: int)
    requires Separate(fs) && f in fs && Within(f, k)
    ensures Mirror(fs, k) == 2 * f.first + f.size - 1 - k
  {
    FrontSeparate(fs);
    if f != fs[|fs| - 1] {
      MirrorIn(fs[..|fs| - 1], f, k);
    }
  }

  lemma {:induction false} MirrorOut(fs: seq<Field>, k: int)
    requires forall f :: f in fs ==> !Within(f, k)
    ensures Mirror(fs, k) == k
  {
    if fs != [] {
      assert fs[|fs| - 1] in fs;
      MirrorOut(fs[..|fs| - 1], k);
    }
  }

  lemma FieldAt(s: seq<u8>, fs: seq<Field>, f: Field, k: nat)
    requires Inside(fs, |s|) && Separate(fs) && f in fs && Within(f, k)
    ensures f.first + f.size <= |s| && FlipAll(s, fs)[k] == s[2 * f.first + f.size - 1 - k]
  {
    assert f.first + f.size <= |s|;
    hide *;
    MirrorIn(fs, f, k);
    FlipAllAt(s, fs, k);
  }

  lemma Turns2(s: seq<u8>, fs: seq<Field>, i: nat)
    requires Inside(fs, |s|) && Separate(fs) && Field(i, 2) in fs
    ensures i + 2 <= |s| && Turned2(FlipAll(s, fs), s, i)
  {
    hide FlipAll, Inside, Separate;
    FieldAt(s, fs, Field(i, 2), i);
    FieldAt(s, fs, Field(i, 2), i + 1);
  }

  lemma Turns4(s: seq<u8>, fs: seq<Field>, i: nat)
    requires Inside(fs, |s|) && Separate(fs) && Field(i, 4) in fs
    ensures i + 4 <= |s| && Turned4(FlipAll(s, fs), s, i)
  {
    hide FlipAll, Inside, Separate;
    FieldAt(s, fs, Field(i, 4), i);
    FieldAt(s, fs, Field(i, 4), i + 1);
    FieldAt(s, fs, Field(i, 4), i + 2);
    FieldAt(s, fs, Field(i, 4), i + 3);
  }

  lemma Stays(s: seq<u8>, fs: seq<Field>, k: nat)
    requires Inside(fs, |s|) && Separate(fs) && k < |s| && forall f :: f in fs ==> !Within(f, k)
    ensures FlipAll(s, fs)[k] == s[k]
  {
    hide FlipAll, Inside, Separate;
    MirrorOut(fs, k);
    FlipAllAt(s, fs, k);
  }

  /** Every byte from `lo` up to `hi` stays. */
  predicate Same(r: seq<u8>, s: seq<u8>, lo: nat, hi: nat)
    requires |r| == |s| && hi <= |s|
  {
    forall k :: lo <= k < hi ==> r[k] == s[k]
  }

  lemma KeptBetween(s: seq<u8>, fs: seq<Field>, lo: nat, hi: nat)
    requires Inside(fs, |s|) && Separate(fs) && hi <= |s|
    requires forall f :: f in fs ==> f.first + f.size <= lo || hi <= f.first
    ensures Same(FlipAll(s, fs), s, lo, hi)
  {
    hide FlipAll, Inside, Separate;
    forall k | lo <= k < hi ensures FlipAll(s, fs)[k] == s[k] {
      Stays(s, fs, k);
    }
  }

  // ----- block zero

  lemma {:induction false} DriverField(n: nat, i: nat)
    requires i < n
    ensures Field(18 + 8 * i, 4) in DriverFields(n) && Field(22 + 8 * i, 2) in DriverFields(n)
    ensures Field(24 + 8 * i, 2) in DriverFields(n)
  {
    if i < n - 1 {
      DriverField(n - 1, i);
    }
  }

  /** What lies behind the signature changes hands up to the `c`th driver descriptor, and every byte behind stays. */
  predicate RestTurned(r: seq<u8>, s: seq<u8>, c: nat)
    requires |r| == |s| == BLOCK_SIZE && c <= DRIVER_LIMIT
  {
    && HeaderTurned(r, s)
    && (forall i :: 0 <= i < c ==>
          Turned4(r, s, 18 + 8 * i) && Turned2(r, s, 22 + 8 * i) && Turned2(r, s, 24 + 8 * i))
    && forall k :: 18 + 8 * c <= k < BLOCK_SIZE ==> r[k] == s[k]
  }

  predicate HeaderTurned(r: seq<u8>, s: seq<u8>)
    requires |r| == |s| == BLOCK_SIZE
  {
    && Turned2(r, s, 2) && Turned4(r, s, 4) && Turned2(r, s, 8) && Turned2(r, s, 10)
    && Turned4(r, s, 12) && Turned2(r, s, 16)
  }

  function ZeroFields(sig: seq<Field>, c: nat): seq<Field> {
    sig + HEADER_FIELDS + DriverFields(c)
  }

  lemma ZeroSeparate(sig: seq<Field>, c: nat)
    requires sig <= [SIGNATURE] && c <= DRIVER_LIMIT
    ensures Inside(ZeroFields(sig, c), BLOCK_SIZE) && Separate(ZeroFields(sig, c))
    ensures (forall f :: f in sig || f in HEADER_FIELDS || f in DriverFields(c) ==> f in ZeroFields(sig, c))
    ensures forall f :: f in ZeroFields(sig, c) ==> f.first + f.size <= 18 + 8 * c
    ensures sig == [] ==> forall f :: f in ZeroFields(sig, c) ==> 2 <= f.first
  {
    HeaderSeparate();
    DriverFieldsSeparate(c);
    hide DriverFields, Separate;
    assert ZeroFields(sig, c) == sig + (HEADER_FIELDS + DriverFields(c));
    assert sig == [] || sig == [SIGNATURE];
    SeparateConcat(HEADER_FIELDS, DriverFields(c), 18);
    SeparateConcat([SIGNATURE], HEADER_FIELDS + DriverFields(c), 2);
    assert [] + (HEADER_FIELDS + DriverFields(c)) == HEADER_FIELDS + DriverFields(c);
  }

  lemma DriverTurned(s: seq<u8>, sig: seq<Field>, c: nat, i: nat)
    requires |s| == BLOCK_SIZE && sig <= [SIGNATURE] && i < c <= DRIVER_LIMIT
    requires Inside(ZeroFields(sig, c), BLOCK_SIZE)
    ensures var r := FlipAll(s, ZeroFields(sig, c));
      Turned4(r, s, 18 + 8 * i) && Turned2(r, s, 22 + 8 * i) && Turned2(r, s, 24 + 8 * i)
  {
    ZeroSeparate(sig, c);
    DriverField(c, i);
    hide FlipAll, Separate, Inside, Turned2, Turned4, ZeroFields, DriverFields;
    Turns4(s, ZeroFields(sig, c), 18 + 8 * i);
    Turns2(s, ZeroFields(sig, c), 22 + 8 * i);
    Turns2(s, ZeroFields(sig, c), 24 + 8 * i);
  }

  lemma HeaderTurns(s: seq<u8>, fs: seq<Field>)
    requires |s| == BLOCK_SIZE && Inside(fs, BLOCK_SIZE) && Separate(fs)
    requires forall f :: f in HEADER_FIELDS ==> f in fs
    ensures HeaderTurned(FlipAll(s, fs), s)
  {
    hide FlipAll, Separate, Inside, Turned2, Turned4;
    var h := HEADER_FIELDS;
    assert h[0] in fs && h[1] in fs && h[2] in fs && h[3] in fs && h[4] in fs && h[5] in fs;
    Turns2(s, fs, 2);
    Turns4(s, fs, 4);
    Turns2(s, fs, 8);
    Turns2(s, fs, 10);
    Turns4(s, fs, 12);
    Turns2(s, fs, 16);
  }

  lemma AllTurned(s: seq<u8>, sig: seq<Field>, c: nat)
    requires |s| == BLOCK_SIZE && sig <= [SIGNATURE] && c <= DRIVER_LIMIT
    ensures Inside(ZeroFields(sig, c), BLOCK_SIZE) && RestTurned(FlipAll(s, ZeroFields(sig, c)), s, c)
  {
    ZeroSeparate(sig, c);
    hide FlipAll, Separate, Inside, Turned2, Turned4, ZeroFields, DriverFields, HeaderTurned;
    HeaderTurns(s, ZeroFields(sig, c));
    var r := FlipAll(s, ZeroFields(sig, c));
    forall i | 0 <= i < c
      ensures Turned4(r, s, 18 + 8 * i) && Turned2(r, s, 22 + 8 * i) && Turned2(r, s, 24 + 8 * i)
    {
      DriverTurned(s, sig, c, i);
    }
    forall k | 18 + 8 * c <= k < BLOCK_SIZE ensures r[k] == s[k] {
      Stays(s, ZeroFields(sig, c), k);
    }
  }

  lemma SignatureTurns(s: seq<u8>, c: nat)
    requires |s| == BLOCK_SIZE && c <= DRIVER_LIMIT
    ensures Inside(ZeroFields([SIGNATURE], c), BLOCK_SIZE)
    ensures Turned2(FlipAll(s, ZeroFields([SIGNATURE], c)), s, 0)
  {
    ZeroSeparate([SIGNATURE], c);
    assert SIGNATURE in [SIGNATURE];
    hide FlipAll, Inside, Separate, ZeroFields, DriverFields, Turned2;
    Turns2(s, ZeroFields([SIGNATURE], c), 0);
  }

  lemma SignatureStays(s: seq<u8>, c: nat)
    requires |s| == BLOCK_SIZE && c <= DRIVER_LIMIT
    ensures Inside(ZeroFields([], c), BLOCK_SIZE) && Same(FlipAll(s, ZeroFields([], c)), s, 0, 2)
  {
    ZeroSeparate([], c);
    hide *;
    KeptBetween(s, ZeroFields([], c), 0, 2);
  }

  /** The signature is in the order of the processor when it has been swapped from the other, or stayed. */
  lemma SignatureRead(r: seq<u8>, s: seq<u8>)
    requires |r| == |s| == BLOCK_SIZE && if Big2(s, 0) == BLOCK0_SIGNATURE then Turned2(r, s, 0) else Same(r, s, 0, 2)
    ensures Get2(r, 0) == if Big2(s, 0) == BLOCK0_SIGNATURE then BLOCK0_SIGNATURE else Get2(s, 0)
  {
  }

  lemma FlippedPair(s: seq<u8>, i: nat)
    requires i + 2 <= |s|
    ensures Get2(Flip(s, Field(i, 2)), i) == Big2(s, i)
  {
    FlipAt(s, Field(i, 2), i);
    FlipAt(s, Field(i, 2), i + 1);
  }

  /**
   A block zero that is read with its signature in either order is converted with as many driver
   descriptors as its bytes count: all fields behind the signature are read with their big-endian
   values, all bytes behind them stay, and the signature is brought into the order of the processor.
   */
  lemma Block0Reads(s: seq<u8>)
    requires |s| == BLOCK_SIZE && (Big2(s, 0) == BLOCK0_SIGNATURE || Get2(s, 0) == BLOCK0_SIGNATURE)
    requires Big2(s, 16) <= DRIVER_LIMIT
    ensures DriversFit(s, true) && Get2(Block0Form(s, true), 0) == BLOCK0_SIGNATURE
    ensures Get2(Block0Form(s, true), 16) == Big2(s, 16) && RestTurned(Block0Form(s, true), s, Big2(s, 16))
  {
    FlippedPair(s, 0);
    FlippedPair(s, 16);
    hide Flip, FlipAll, DriverFields, RestTurned;
    var sig := if Big2(s, 0) == BLOCK0_SIGNATURE then [SIGNATURE] else [];
    AllTurned(s, sig, Big2(s, 16));
    SignatureTurns(s, Big2(s, 16));
    SignatureStays(s, Big2(s, 16));
    SignatureRead(Block0Form(s, true), s);
    CountTurned(Block0Form(s, true), s, Big2(s, 16));
  }

  lemma CountTurned(r: seq<u8>, s: seq<u8>, c: nat)
    requires |r| == |s| == BLOCK_SIZE && c <= DRIVER_LIMIT && RestTurned(r, s, c)
    ensures Get2(r, 16) == Big2(s, 16) && Big2(r, 16) == Get2(s, 16)
  {
  }

  /** A block zero with the signature that is written is converted in the same way, by the count in memory. */
  lemma Block0Writes(s: seq<u8>)
    requires |s| == BLOCK_SIZE && Get2(s, 0) == BLOCK0_SIGNATURE && 0 <= Get2(s, 16) <= DRIVER_LIMIT
    ensures DriversFit(s, false) && Big2(Block0Form(s, false), 0) == BLOCK0_SIGNATURE
    ensures Big2(Block0Form(s, false), 16) == Get2(s, 16) && RestTurned(Block0Form(s, false), s, Get2(s, 16))
  {
    assert 0 <= Get2(s, 16);
    hide Flip, FlipAll, DriverFields, RestTurned;
    AllTurned(s, [SIGNATURE], Get2(s, 16));
    SignatureTurns(s, Get2(s, 16));
    CountTurned(Block0Form(s, false), s, Get2(s, 16));
  }

  /** A block zero without the signature is left alone, in either direction. */
  lemma Block0Ignored(s: seq<u8>, toCpu: bool)
    requires |s| == BLOCK_SIZE && Get2(s, 0) != BLOCK0_SIGNATURE && (toCpu ==> Big2(s, 0) != BLOCK0_SIGNATURE)
    ensures DriversFit(s, toCpu) && Block0Form(s, toCpu) == s
  {
    FlippedPair(s, 0);
    hide Flip, Get2;
  }

  // ----- a partition map entry

  /** `n` consecutive four-byte fields change hands. */
  predicate RunTurned(r: seq<u8>, s: seq<u8>, first: nat, n: nat)
    requires |r| == |s| && first + 4 * n <= |s|
  {
    forall i :: 0 <= i < n ==> Turned4(r, s, first + 4 * i)
  }

  /** The fields in front of the boot block structure change hands, and the bytes between them stay. */
  predicate FrontTurned(r: seq<u8>, s: seq<u8>)
    requires |r| == |s| == BLOCK_SIZE
  {
    && Turned2(r, s, 0) && Turned2(r, s, 2) && Turned4(r, s, 4) && Turned4(r, s, 8) && Turned4(r, s, 12)
    && Same(r, s, 16, 80) && RunTurned(r, s, 80, 10) && Same(r, s, 120, 136)
  }

  /** So do those of the boot block structure behind its magic. */
  predicate BackTurned(r: seq<u8>, s: seq<u8>)
    requires |r| == |s| == BLOCK_SIZE
  {
    && Same(r, s, 140, 142) && Turned2(r, s, 142)
    && RunTurned(r, s, 144, 4) && Same(r, s, 160, BLOCK_SIZE)
  }

  /** The fields that convert_dpme swaps, with those of a recognised boot block structure. */
  function EntryFields(bzb: seq<Field>): seq<Field> {
    DPME_FIELDS + bzb
  }

  predicate Bzb(bzb: seq<Field>) {
    bzb == [] || bzb == BZB_FIELDS || bzb == [MAGIC] + BZB_FIELDS
  }

  lemma BzbSeparate(bzb: seq<Field>)
    requires Bzb(bzb)
    ensures Separate(bzb) && (forall f :: f in bzb ==> 136 <= f.first && f.first + f.size <= 160)
    ensures forall f :: f in bzb ==> (f == MAGIC && f.first + f.size <= 140) || 142 <= f.first
  {
    SeparatePair();
    hide Separate, FourByteFields;
    SeparateConcat([Field(142, 2)], FourByteFields(144, 4), 144);
    SeparateConcat([MAGIC], BZB_FIELDS, 140);
  }

  lemma EntrySeparate(bzb: seq<Field>)
    requires Bzb(bzb)
    ensures Inside(EntryFields(bzb), BLOCK_SIZE) && Separate(EntryFields(bzb))
    ensures forall f :: f in DPME_FIELDS || f in bzb ==> f in EntryFields(bzb)
    ensures forall f :: f in EntryFields(bzb) ==>
        (f.first + f.size <= 16 || 80 <= f.first) && (f.first + f.size <= 120 || f in bzb)
  {
    DpmeFieldsSeparate();
    DpmeFieldsApart();
    BzbSeparate(bzb);
    SeparateConcat(DPME_FIELDS, bzb, 120);
    hide Separate, Bzb, DPME_FIELDS;
  }

  lemma DpmeFieldsApart()
    ensures forall f :: f in DPME_FIELDS ==> f.first + f.size <= 16 || 80 <= f.first
  {
    hide Separate;
  }

  lemma RunTurns(s: seq<u8>, fs: seq<Field>, first: nat, n: nat)
    requires Inside(fs, |s|) && Separate(fs) && first + 4 * n <= |s|
    requires forall f :: f in FourByteFields(first, n) ==> f in fs
    ensures RunTurned(FlipAll(s, fs), s, first, n)
  {
    hide FlipAll, Inside, Separate, Turned4;
    forall i | 0 <= i < n ensures Turned4(FlipAll(s, fs), s, first + 4 * i) {
      assert FourByteFields(first, n)[i] in fs;
      Turns4(s, fs, first + 4 * i);
    }
  }

  lemma FrontTurns(s: seq<u8>, bzb: seq<Field>)
    requires |s| == BLOCK_SIZE && Bzb(bzb)
    ensures Inside(EntryFields(bzb), BLOCK_SIZE) && FrontTurned(FlipAll(s, EntryFields(bzb)), s)
  {
    EntrySeparate(bzb);
    BzbSeparate(bzb);
    var fs := EntryFields(bzb);
    FrontIn(fs);
    hide *;
    Turns2(s, fs, 0);
    Turns2(s, fs, 2);
    RunTurns(s, fs, 4, 3);
    RunTurns(s, fs, 80, 10);
    KeptBetween(s, fs, 16, 80);
    KeptBetween(s, fs, 120, 136);
    FrontGathered(FlipAll(s, fs), s);
  }

  lemma FrontIn(fs: seq<Field>)
    requires forall f :: f in DPME_FIELDS ==> f in fs
    ensures Field(0, 2) in fs && Field(2, 2) in fs
    ensures forall f :: f in FourByteFields(4, 3) || f in FourByteFields(80, 10) ==> f in fs
  {
    hide FourByteFields;
    assert Field(0, 2) in [Field(0, 2), Field(2, 2)] && Field(2, 2) in [Field(0, 2), Field(2, 2)];
  }

  lemma FrontGathered(r: seq<u8>, s: seq<u8>)
    requires |r| == |s| == BLOCK_SIZE && Turned2(r, s, 0) && Turned2(r, s, 2) && RunTurned(r, s, 4, 3)
    requires Same(r, s, 16, 80) && RunTurned(r, s, 80, 10) && Same(r, s, 120, 136)
    ensures FrontTurned(r, s)
  {
    hide Turned2, Turned4, Same;
    assert Turned4(r, s, 4 + 4 * 0) && Turned4(r, s, 4 + 4 * 1) && Turned4(r, s, 4 + 4 * 2);
  }

  lemma BackIn(bzb: seq<Field>, fs: seq<Field>)
    requires Bzb(bzb) && bzb != [] && forall f :: f in bzb ==> f in fs
    ensures Field(142, 2) in fs && forall f :: f in FourByteFields(144, 4) ==> f in fs
    ensures bzb == BZB_FIELDS ==> MAGIC !in bzb
  {
    BzbFieldsListed();
    hide FourByteFields;
    assert Field(142, 2) in [Field(142, 2)];
    assert forall f :: f in BZB_FIELDS ==> f in bzb;
  }

  lemma BackTurns(s: seq<u8>, bzb: seq<Field>)
    requires |s| == BLOCK_SIZE && Bzb(bzb) && bzb != []
    ensures Inside(EntryFields(bzb), BLOCK_SIZE) && BackTurned(FlipAll(s, EntryFields(bzb)), s)
  {
    EntrySeparate(bzb);
    BzbSeparate(bzb);
    var fs := EntryFields(bzb);
    BackIn(bzb, fs);
    hide *;
    Turns2(s, fs, 142);
    RunTurns(s, fs, 144, 4);
    KeptBetween(s, fs, 140, 142);
    KeptBetween(s, fs, 160, BLOCK_SIZE);
    BackGathered(FlipAll(s, fs), s);
  }

  lemma BackGathered(r: seq<u8>, s: seq<u8>)
    requires |r| == |s| == BLOCK_SIZE && Same(r, s, 140, 142) && Turned2(r, s, 142)
    requires RunTurned(r, s, 144, 4) && Same(r, s, 160, BLOCK_SIZE)
    ensures BackTurned(r, s)
  {
    hide Same, Turned2, RunTurned;
  }

  lemma MagicStays(s: seq<u8>)
    requires |s| == BLOCK_SIZE
    ensures Inside(EntryFields(BZB_FIELDS), BLOCK_SIZE)
    ensures Same(FlipAll(s, EntryFields(BZB_FIELDS)), s, 136, 140)
  {
    var bzb := BZB_FIELDS;
    EntrySeparate(bzb);
    BzbSeparate(bzb);
    BackIn(bzb, bzb);
    hide *;
    KeptBetween(s, EntryFields(bzb), 136, 140);
  }

  lemma BackStays(s: seq<u8>)
    requires |s| == BLOCK_SIZE
    ensures Inside(EntryFields([]), BLOCK_SIZE) && Same(FlipAll(s, EntryFields([])), s, 120, BLOCK_SIZE)
  {
    EntrySeparate([]);
    hide *;
    KeptBetween(s, EntryFields([]), 120, BLOCK_SIZE);
  }

  lemma MagicTurns(s: seq<u8>)
    requires |s| == BLOCK_SIZE
    ensures Inside(EntryFields([MAGIC] + BZB_FIELDS), BLOCK_SIZE)
    ensures Turned4(FlipAll(s, EntryFields([MAGIC] + BZB_FIELDS)), s, 136)
  {
    var bzb := [MAGIC] + BZB_FIELDS;
    EntrySeparate(bzb);
    hide FlipAll, Separate, Inside, Turned4, FourByteFields, EntryFields;
    assert MAGIC in bzb;
    Turns4(s, EntryFields(bzb), 136);
  }

  lemma FlippedMagic(s: seq<u8>)
    requires |s| == BLOCK_SIZE
    ensures Get4(Flip(s, MAGIC), 136) == Big4(s, 136)
  {
    FlipAt(s, MAGIC, 136);
    FlipAt(s, MAGIC, 137);
    FlipAt(s, MAGIC, 138);
    FlipAt(s, MAGIC, 139);
  }

  /**
   A partition map entry that is read or written: the fields of the entry itself change hands in any
   case, those of the boot block structure if its magic is there, on reading in either order, and
   otherwise everything behind the entry stays.
   */
  lemma DpmeConverts(s: seq<u8>, toCpu: bool)
    requires |s| == BLOCK_SIZE
    ensures var r, here, there := DpmeForm(s, toCpu), Get4(s, 136) == BZBMAGIC, Big4(s, 136) == BZBMAGIC;
      && FrontTurned(r, s)
      && (here || (toCpu && there) ==> BackTurned(r, s))
      && ((if toCpu then there else here) ==> Turned4(r, s, 136))
      && (!(if toCpu then there else here) ==> Same(r, s, 136, 140))
      && (!here && !(toCpu && there) ==> Same(r, s, 120, BLOCK_SIZE))
  {
    var here, there := Get4(s, 136) == BZBMAGIC, Big4(s, 136) == BZBMAGIC;
    var magic := if toCpu then there else here;
    var bzb := Swapped(s, toCpu);
    hide *;
    FrontTurns(s, bzb);
    if bzb == [] {
      BackStays(s);
    } else {
      BackTurns(s, bzb);
    }
    if magic {
      MagicTurns(s);
    } else if here {
      MagicStays(s);
    } else {
      BackStays(s);
      KeptLess(DpmeForm(s, toCpu), s);
    }
  }

  lemma KeptLess(r: seq<u8>, s: seq<u8>)
    requires |r| == |s| == BLOCK_SIZE && Same(r, s, 120, BLOCK_SIZE)
    ensures Same(r, s, 136, 140)
  {
  }

  /** The fields of the boot block structure that are swapped. */
  lemma Swapped(s: seq<u8>, toCpu: bool) returns (bzb: seq<Field>)
    requires |s| == BLOCK_SIZE
    ensures var here, there := Get4(s, 136) == BZBMAGIC, Big4(s, 136) == BZBMAGIC;
      && ((if toCpu then there else here) ==> bzb == [MAGIC] + BZB_FIELDS)
      && (here && toCpu && !there ==> bzb == BZB_FIELDS)
    ensures Bzb(bzb) && Inside(EntryFields(bzb), BLOCK_SIZE) && DpmeForm(s, toCpu) == FlipAll(s, EntryFields(bzb))
    ensures bzb == [] <==> !(Get4(s, 136) == BZBMAGIC || (toCpu && Big4(s, 136) == BZBMAGIC))
  {
    FlippedMagic(s);
    BzbFieldsListed();
    BzbFieldsSeparate(s, toCpu);
    hide Flip, FlipAll, Get4, Big4, FourByteFields, Inside, Separate;
    bzb := BzbFields(s, toCpu);
  }

  // ----- what an entry on the disk means

  /** A text field of the disk means its characters in front of the first null byte, or all of them. */
  lemma {:induction false} TextIs(s: seq<u8>)
    ensures |Text(s)| <= |s| && (|Text(s)| < |s| ==> s[|Text(s)|] == 0)
    ensures forall i :: 0 <= i < |Text(s)| ==> s[i] != 0 && Text(s)[i] == s[i] as char
  {
    if s != [] && s[0] != 0 {
      TextIs(s[1..]);
    }
  }

  /**
   The entry that a block of a disk holds: the numbers are the big-endian values of the fields of the
   struct, and the texts are those of its name and type.
   */
  lemma EntryMeans(s: Sector)
    ensures var e := BlockOn(s);
      && e.signature == Big2(s, 0) && e.mapEntries == Big4(s, 4)
      && e.data.start == Big4(s, 8) && e.data.blocks == Big4(s, 12)
      && e.data.name == Text(s[16..48]) && e.data.ptype == TypeOf(Text(s[48..80]))
      && e.data.lstart == Big4(s, 80) && e.data.lblocks == Big4(s, 84) && e.data.flags == Big4(s, 88)
  {
    DpmeConverts(s, true);
    var r := DpmeForm(s, true);
    FrontRead(r, s);
    hide DpmeForm, FrontTurned, BackTurned, Turned4, Same, Get2, Get4, Big2, Big4, Text, TypeOf;
  }

  lemma FrontRead(r: seq<u8>, s: seq<u8>)
    requires |r| == |s| == BLOCK_SIZE && FrontTurned(r, s)
    ensures Get2(r, 0) == Big2(s, 0) && Get4(r, 4) == Big4(s, 4) && Get4(r, 8) == Big4(s, 8)
    ensures Get4(r, 12) == Big4(s, 12) && r[16..48] == s[16..48] && r[48..80] == s[48..80]
    ensures Get4(r, 80) == Big4(s, 80) && Get4(r, 84) == Big4(s, 84) && Get4(r, 88) == Big4(s, 88)
  {
    hide Get2, Get4, Big2, Big4;
    assert Turned4(r, s, 80 + 4 * 0) && Turned4(r, s, 80 + 4 * 1) && Turned4(r, s, 80 + 4 * 2);
  }
}
