/** In-place conversion of disk blocks between disk and processor byte order (convert.c, little-endian builds). */
module Convert {
  import opened Words

  const BLOCK_SIZE := 512
  const BLOCK0_SIGNATURE := 0x4552
  const BZBMAGIC := 0xABADBABE
  const DRIVER_LIMIT := 61 // more driver descriptors do not fit into block 0

  /** The bytes first..first+size of a block. */
  datatype Field = Field(first: nat, size: nat)

  predicate Within(f: Field, k: int) {
    f.first <= k < f.first + f.size
  }

  /** `s` with the bytes of one field in reverse order. */
  function Flip(s: seq<u8>, f: Field): (r: seq<u8>)
    requires f.first + f.size <= |s|
    ensures |r| == |s|
  {
    seq(|s|, k requires 0 <= k < |s| => s[if Within(f, k) then 2 * f.first + f.size - 1 - k else k])
  }

  /** The fields lie inside `n` bytes. */
  predicate Inside(fs: seq<Field>, n: nat) {
    forall f :: f in fs ==> f.first + f.size <= n
  }

  function FlipAll(s: seq<u8>, fs: seq<Field>): (r: seq<u8>)
    requires Inside(fs, |s|)
    ensures |r| == |s|
  {
    if fs == [] then s else Flip(FlipAll(s, fs[..|fs| - 1]), fs[|fs| - 1])
  }

  /** Reading a two-byte or four-byte field the way a little-endian processor does. */
  function Get2(s: seq<u8>, i: nat): int
    requires i + 2 <= |s|
  {
    var b0: int, b1: int := s[i], s[i + 1];
    b0 + 0x100 * b1
  }

  function Get4(s: seq<u8>, i: nat): int
    requires i + 4 <= |s|
  {
    Get2(s, i) + 0x1_0000 * Get2(s, i + 2)
  }

  // ----- flipping disjoint fields

  /** The fields are in ascending order and do not overlap. */
  predicate Separate(fs: seq<Field>) {
    forall i, j :: 0 <= i < j < |fs| ==> fs[i].first + fs[i].size <= fs[j].first
  }

  /** Byte `k` ends up at the mirrored place of its field, if it has one. */
  function Mirror(fs: seq<Field>, k: int): int {
    if fs == [] then k
    else
      var f := fs[|fs| - 1];
      if Within(f, k) then 2 * f.first + f.size - 1 - k else Mirror(fs[..|fs| - 1], k)
  }

  lemma {:induction false} MirrorBelow(fs: seq<Field>, k: int, n: int)
    requires forall f :: f in fs ==> f.first + f.size <= n
    ensures k < n ==> Mirror(fs, k) < n
    ensures n <= k ==> Mirror(fs, k) == k
    ensures 0 <= k ==> 0 <= Mirror(fs, k)
  {
    if fs != [] {
      var g := fs[|fs| - 1];
      assert g in fs;
      MirrorBelow(fs[..|fs| - 1], k, n);
    }
  }

  lemma FlipAt(s: seq<u8>, f: Field, k: nat)
    requires f.first + f.size <= |s| && k < |s|
    ensures Flip(s, f)[k] == s[if Within(f, k) then 2 * f.first + f.size - 1 - k else k]
  {
  }

  /** All fields but the last are separate, and below the last one. */
  lemma FrontSeparate(fs: seq<Field>)
    requires Separate(fs) && fs != []
    ensures var g, gs := fs[|fs| - 1], fs[..|fs| - 1];
      Separate(gs) && (forall f :: f in gs ==> f.first + f.size <= g.first)
      && forall n :: Inside(fs, n) ==> Inside(gs, n)
  {
    forall f | f in fs[..|fs| - 1] ensures f.first + f.size <= fs[|fs| - 1].first {
      var i :| 0 <= i < |fs| - 1 && fs[i] == f;
    }
  }

  lemma MirrorAbove(fs: seq<Field>, k: int, n: int)
    requires forall f :: f in fs ==> f.first + f.size <= n
    requires n <= k
    ensures Mirror(fs, k) == k
  {
    MirrorBelow(fs, k, n);
  }

  lemma LastFlip(s: seq<u8>, fs: seq<Field>)
    requires Inside(fs, |s|) && fs != []
    ensures var g, gs := fs[|fs| - 1], fs[..|fs| - 1];
      && g.first + g.size <= |s| && Inside(gs, |s|)
      && FlipAll(s, fs) == Flip(FlipAll(s, gs), g)
  {
    assert fs[|fs| - 1] in fs;
  }

  lemma LastMirror(fs: seq<Field>, k: int)
    requires fs != []
    ensures var g, gs := fs[|fs| - 1], fs[..|fs| - 1];
      Mirror(fs, k) == if Within(g, k) then 2 * g.first + g.size - 1 - k else Mirror(gs, k)
  {
  }

  lemma NoMirror(s: seq<u8>, k: int)
    ensures Inside([], |s|) && FlipAll(s, []) == s && Mirror([], k) == k
  {
  }

  lemma {:induction false} FlipAllAt(s: seq<u8>, fs: seq<Field>, k: nat)
    requires Inside(fs, |s|) && Separate(fs) && k < |s|
    ensures 0 <= Mirror(fs, k) < |s| && FlipAll(s, fs)[k] == s[Mirror(fs, k)]
  {
    hide FlipAll, Flip, Mirror, Separate, Inside;
    if fs == [] {
      NoMirror(s, k);
    } else {
      var g, gs := fs[|fs| - 1], fs[..|fs| - 1];
      FrontSeparate(fs);
      LastFlip(s, fs);
      LastMirror(fs, k);
      FlipAt(FlipAll(s, gs), g, k);
      var m := if Within(g, k) then 2 * g.first + g.size - 1 - k else k;
      FlipAllAt(s, gs, m);
      if Within(g, k) {
        MirrorAbove(gs, m, g.first);
      }
    }
  }

  lemma {:induction false} MirrorTwice(fs: seq<Field>, k: int)
    requires Separate(fs)
    ensures Mirror(fs, Mirror(fs, k)) == k
  {
    if fs != [] {
      var g, gs := fs[|fs| - 1], fs[..|fs| - 1];
      FrontSeparate(fs);
      MirrorBelow(gs, k, g.first);
      MirrorTwice(gs, k);
    }
  }

  /** Flipping separate fields a second time undoes it. */
  lemma FlipTwice(s: seq<u8>, fs: seq<Field>)
    requires Inside(fs, |s|) && Separate(fs)
    ensures FlipAll(FlipAll(s, fs), fs) == s
  {
    forall k | 0 <= k < |s| ensures FlipAll(FlipAll(s, fs), fs)[k] == s[k] {
      FlipAllAt(FlipAll(s, fs), fs, k);
      FlipAllAt(s, fs, Mirror(fs, k));
      MirrorTwice(fs, k);
    }
  }

  lemma FlipNone(s: seq<u8>)
    ensures Inside([], |s|) && FlipAll(s, []) == s
  {
  }

  lemma FlipMore(s: seq<u8>, fs: seq<Field>, f: Field)
    requires Inside(fs, |s|) && f.first + f.size <= |s|
    ensures Inside(fs + [f], |s|) && FlipAll(s, fs + [f]) == Flip(FlipAll(s, fs), f)
  {
    assert (fs + [f])[..|fs|] == fs;
  }

  lemma FlipBack(s: seq<u8>, f: Field)
    requires f.first + f.size <= |s|
    ensures Flip(Flip(s, f), f) == s
  {
  }

  lemma FlipThree(s: seq<u8>, fs: seq<Field>, f: Field, g: Field, h: Field)
    requires Inside(fs, |s|) && f.first + f.size <= |s| && g.first + g.size <= |s| && h.first + h.size <= |s|
    ensures Inside(fs + [f, g, h], |s|)
    ensures FlipAll(s, fs + [f, g, h]) == Flip(Flip(Flip(FlipAll(s, fs), f), g), h)
  {
    hide Flip, FlipAll, Inside;
    FlipMore(s, fs, f);
    FlipMore(s, fs + [f], g);
    FlipMore(s, fs + [f] + [g], h);
    assert fs + [f, g, h] == fs + [f] + [g] + [h];
  }

  // ----- the byte swaps

  /** reverse2 */
  method Reverse2(bytes: array<u8>, i: nat)
    requires i + 2 <= bytes.Length
    modifies bytes
    ensures bytes[..] == Flip(old(bytes[..]), Field(i, 2))
  {
    var t := bytes[i];
    bytes[i] := bytes[i + 1];
    bytes[i + 1] := t;
  }

  /** reverse4 */
  method Reverse4(bytes: array<u8>, i: nat)
    requires i + 4 <= bytes.Length
    modifies bytes
    ensures bytes[..] == Flip(old(bytes[..]), Field(i, 4))
  {
    var t := bytes[i];
    bytes[i] := bytes[i + 3];
    bytes[i + 3] := t;
    t := bytes[i + 1];
    bytes[i + 1] := bytes[i + 2];
    bytes[i + 2] := t;
  }

  // ----- block zero

  const SIGNATURE := Field(0, 2)  // sbSig
  const COUNT := Field(16, 2)     // sbDrvrCount

  /** sbBlkSize, sbBlkCount, sbDevType, sbDevId, sbData and sbDrvrCount */
  const HEADER_FIELDS := [Field(2, 2), Field(4, 4), Field(8, 2), Field(10, 2), Field(12, 4), COUNT]

  /** ddBlock, ddSize and ddType of the first `n` driver descriptors in sbMap. */
  function DriverFields(n: nat): seq<Field> {
    if n == 0 then []
    else DriverFields(n - 1) + [Field(10 + 8 * n, 4), Field(14 + 8 * n, 2), Field(16 + 8 * n, 2)]
  }

  /** How many driver descriptors convert_block0 will convert. */
  function DriverCount(s: seq<u8>, toCpu: bool): nat
    requires |s| == BLOCK_SIZE
  {
    if toCpu then Get2(Flip(s, COUNT), 16) else Get2(s, 16)
  }

  /** Block zero is recognised, in the byte order asked for or, towards the processor, in either. */
  predicate Recognised(s: seq<u8>, toCpu: bool)
    requires |s| == BLOCK_SIZE
  {
    Get2(s, 0) == BLOCK0_SIGNATURE || (toCpu && Get2(Flip(s, SIGNATURE), 0) == BLOCK0_SIGNATURE)
  }

  /** The fields convert_block0 swaps; a signature already in processor order stays. */
  function Block0Fields(s: seq<u8>, toCpu: bool): seq<Field>
    requires |s| == BLOCK_SIZE
  {
    if !Recognised(s, toCpu) then []
    else
      (if toCpu && Get2(Flip(s, SIGNATURE), 0) != BLOCK0_SIGNATURE then [] else [SIGNATURE])
      + HEADER_FIELDS + DriverFields(DriverCount(s, toCpu))
  }

  /** The driver descriptors that will be converted lie inside the block. */
  predicate DriversFit(s: seq<u8>, toCpu: bool)
    requires |s| == BLOCK_SIZE
  {
    Recognised(s, toCpu) ==> DriverCount(s, toCpu) <= DRIVER_LIMIT
  }

  lemma DriverFieldsSeparate(n: nat)
    ensures |DriverFields(n)| == 3 * n && Separate(DriverFields(n))
    ensures forall f :: f in DriverFields(n) ==> 18 <= f.first && f.first + f.size <= 18 + 8 * n
  {
  }

  lemma HeaderSeparate()
    ensures Separate(HEADER_FIELDS) && Separate([SIGNATURE]) && forall f :: f in HEADER_FIELDS ==>
        2 <= f.first && f.first + f.size <= 18
  {
  }

  lemma Block0FieldsSeparate(s: seq<u8>, toCpu: bool)
    requires |s| == BLOCK_SIZE && DriversFit(s, toCpu)
    ensures Inside(Block0Fields(s, toCpu), |s|) && Separate(Block0Fields(s, toCpu))
  {
    hide Recognised, DriverFields, DriverCount, Flip, Get2;
    HeaderSeparate();
    if Recognised(s, toCpu) {
      var n := DriverCount(s, toCpu);
      DriverFieldsSeparate(n);
      SeparateConcat(HEADER_FIELDS, DriverFields(n), 18);
      SeparateConcat([SIGNATURE], HEADER_FIELDS + DriverFields(n), 2);
      assert [SIGNATURE] + HEADER_FIELDS + DriverFields(n) == [SIGNATURE] + (HEADER_FIELDS + DriverFields(n));
      assert [] + HEADER_FIELDS + DriverFields(n) == HEADER_FIELDS + DriverFields(n);
    }
  }

  lemma SeparateConcat(fs: seq<Field>, gs: seq<Field>, m: nat)
    requires Separate(fs) && Separate(gs)
    requires (forall f :: f in fs ==> f.first + f.size <= m) && (forall g :: g in gs ==> m <= g.first)
    ensures Separate(fs + gs)
  {
  }

  /** What convert_block0 makes of a block. */
  function Block0Form(s: seq<u8>, toCpu: bool): (r: seq<u8>)
    requires |s| == BLOCK_SIZE && DriversFit(s, toCpu)
    ensures |r| == |s|
  {
    Block0FieldsSeparate(s, toCpu);
    FlipAll(s, Block0Fields(s, toCpu))
  }

  lemma {:induction false} FlipConcat(s: seq<u8>, fs: seq<Field>, gs: seq<Field>)
    requires Inside(fs, |s|) && Inside(gs, |s|)
    ensures Inside(fs + gs, |s|) && FlipAll(s, fs + gs) == FlipAll(FlipAll(s, fs), gs)
  {
    if gs == [] {
      assert fs + gs == fs;
    } else {
      var g, hs := gs[|gs| - 1], gs[..|gs| - 1];
      assert g in gs;
      FlipConcat(s, fs, hs);
      FlipMore(s, fs + hs, g);
      assert fs + gs == fs + hs + [g];
    }
  }

  /** The six swaps after the signature, and the count in the order that is valid on the way. */
  method SwapHeader(bytes: array<u8>, toCpu: bool) returns (count: nat)
    requires bytes.Length == BLOCK_SIZE
    modifies bytes
    ensures Inside(HEADER_FIELDS, BLOCK_SIZE) && bytes[..] == FlipAll(old(bytes[..]), HEADER_FIELDS)
    ensures count == DriverCount(old(bytes[..]), toCpu)
  {
    ghost var s := bytes[..];
    Reverse2(bytes, 2);
    Reverse4(bytes, 4);
    Reverse2(bytes, 8);
    Reverse2(bytes, 10);
    Reverse4(bytes, 12);
    if toCpu {
      Reverse2(bytes, 16);
      count := Get2(bytes[..], 16);
    } else {
      count := Get2(bytes[..], 16);
      Reverse2(bytes, 16);
    }
    HeaderFlips(s);
  }

  lemma HeaderListed()
    ensures HEADER_FIELDS == [] + [Field(2, 2), Field(4, 4), Field(8, 2)] + [Field(10, 2), Field(12, 4), COUNT]
  {
  }

  lemma HeaderFlips(s: seq<u8>)
    requires |s| == BLOCK_SIZE
    ensures Inside(HEADER_FIELDS, BLOCK_SIZE)
    ensures FlipAll(s, HEADER_FIELDS) ==
      Flip(Flip(Flip(Flip(Flip(Flip(s, Field(2, 2)), Field(4, 4)), Field(8, 2)), Field(10, 2)), Field(12, 4)), COUNT)
  {
    hide Flip, FlipAll, Inside;
    FlipNone(s);
    var front := FlippedThree(s, [], Field(2, 2), Field(4, 4), Field(8, 2));
    var all := FlippedThree(s, front, Field(10, 2), Field(12, 4), COUNT);
    HeaderListed();
  }

  /** One driver descriptor. */
  method SwapDriver(bytes: array<u8>, at: nat)
    requires bytes.Length == BLOCK_SIZE && at + 8 <= BLOCK_SIZE
    modifies bytes
    ensures bytes[..] == Flip(Flip(Flip(old(bytes[..]), Field(at, 4)), Field(at + 4, 2)), Field(at + 6, 2))
  {
    hide Flip;
    Reverse4(bytes, at);
    Reverse2(bytes, at + 4);
    Reverse2(bytes, at + 6);
  }

  /** The loop over the driver descriptors. */
  method SwapDrivers(bytes: array<u8>, count: nat)
    requires bytes.Length == BLOCK_SIZE && count <= DRIVER_LIMIT
    modifies bytes
    ensures Inside(DriverFields(count), BLOCK_SIZE) && bytes[..] == FlipAll(old(bytes[..]), DriverFields(count))
  {
    hide Flip, FlipAll, Inside, DriverFields;
    ghost var s := bytes[..];
    NoDriverFlips(s);
    var i := 0;
    while i < count
      invariant 0 <= i <= count && Inside(DriverFields(i), BLOCK_SIZE)
      invariant bytes[..] == FlipAll(s, DriverFields(i))
    {
      SwapDriver(bytes, 18 + 8 * i);
      DriverFlips(s, i + 1);
      i := i + 1;
    }
  }

  lemma NoDriverFlips(s: seq<u8>)
    ensures Inside(DriverFields(0), |s|) && FlipAll(s, DriverFields(0)) == s
  {
    FlipNone(s);
  }

  lemma DriverFlips(s: seq<u8>, n: nat)
    requires |s| == BLOCK_SIZE && 0 < n <= DRIVER_LIMIT && Inside(DriverFields(n - 1), BLOCK_SIZE)
    ensures Inside(DriverFields(n), BLOCK_SIZE)
    ensures FlipAll(s, DriverFields(n)) ==
      Flip(Flip(Flip(FlipAll(s, DriverFields(n - 1)),
        Field(10 + 8 * n, 4)), Field(14 + 8 * n, 2)), Field(16 + 8 * n, 2))
  {
    FlipThree(s, DriverFields(n - 1), Field(10 + 8 * n, 4), Field(14 + 8 * n, 2), Field(16 + 8 * n, 2));
  }

  lemma SignatureApart(s: seq<u8>, toCpu: bool)
    requires |s| == BLOCK_SIZE
    ensures DriverCount(Flip(s, SIGNATURE), toCpu) == DriverCount(s, toCpu)
  {
  }

  /** convert_block0 */
  method ConvertBlock0(bytes: array<u8>, toCpu: bool)
    requires bytes.Length == BLOCK_SIZE && DriversFit(bytes[..], toCpu)
    modifies bytes
    ensures bytes[..] == Block0Form(old(bytes[..]), toCpu)
  {
    hide Flip, FlipAll, Inside, DriverFields, Get2, Separate;
    ghost var s := bytes[..];
    FlipNone(s);
    ghost var sig: seq<Field> := [SIGNATURE];
    if toCpu {
      Reverse2(bytes, 0);
      if Get2(bytes[..], 0) != BLOCK0_SIGNATURE {
        Reverse2(bytes, 0);
        sig := [];
        FlipBack(s, SIGNATURE);
        if Get2(bytes[..], 0) != BLOCK0_SIGNATURE {
          return;
        }
      }
    } else {
      if Get2(bytes[..], 0) != BLOCK0_SIGNATURE {
        return;
      }
      Reverse2(bytes, 0);
    }
    SignatureApart(s, toCpu);
    var count := SwapHeader(bytes, toCpu);
    SwapDrivers(bytes, count);
    FlipMore(s, [], SIGNATURE);
    assert [] + [SIGNATURE] == [SIGNATURE];
    FlipConcat(s, sig, HEADER_FIELDS);
    FlipConcat(s, sig + HEADER_FIELDS, DriverFields(count));
  }

  // ----- converting block zero there and back

  const REVERSED_SIGNATURE := 0x5245
  const REVERSED_BZBMAGIC := 0xBEBAADAB

  lemma {:induction false} MirrorLow(fs: seq<Field>, gs: seq<Field>, k: int)
    requires forall g :: g in gs ==> k < g.first
    ensures Mirror(fs + gs, k) == Mirror(fs, k)
  {
    if gs == [] {
      assert fs + gs == fs;
    } else {
      var hs := gs[..|gs| - 1];
      MirrorLow(fs, hs, k);
      assert (fs + gs)[..|fs + gs| - 1] == fs + hs;
      assert gs[|gs| - 1] in gs;
    }
  }

  lemma MirrorNone(k: int)
    ensures Mirror([], k) == k
  {
  }

  lemma MirrorLast(fs: seq<Field>, f: Field, k: int)
    requires Within(f, k)
    ensures Mirror(fs + [f], k) == 2 * f.first + f.size - 1 - k
  {
  }

  const BEFORE_COUNT := [Field(2, 2), Field(4, 4), Field(8, 2), Field(10, 2), Field(12, 4)]

  lemma CountMirrors(sig: seq<Field>, gs: seq<Field>)
    requires forall g :: g in gs ==> 18 <= g.first
    ensures Mirror(sig + HEADER_FIELDS + gs, 16) == 17 && Mirror(sig + HEADER_FIELDS + gs, 17) == 16
  {
    hide Mirror;
    assert HEADER_FIELDS == BEFORE_COUNT + [COUNT];
    assert sig + HEADER_FIELDS == sig + BEFORE_COUNT + [COUNT];
    MirrorLow(sig + HEADER_FIELDS, gs, 16);
    MirrorLow(sig + HEADER_FIELDS, gs, 17);
    MirrorLast(sig + BEFORE_COUNT, COUNT, 16);
    MirrorLast(sig + BEFORE_COUNT, COUNT, 17);
  }

  lemma SignatureMirrors(gs: seq<Field>)
    requires forall g :: g in gs ==> 2 <= g.first
    ensures Mirror(gs, 0) == 0 && Mirror(gs, 1) == 1
    ensures Mirror([SIGNATURE] + gs, 0) == 1 && Mirror([SIGNATURE] + gs, 1) == 0
  {
    hide Mirror;
    forall k | 0 <= k < 2
      ensures Mirror(gs, k) == k && Mirror([SIGNATURE] + gs, k) == 1 - k
    {
      MirrorLow([], gs, k);
      MirrorNone(k);
      MirrorLow([SIGNATURE], gs, k);
      MirrorLast([], SIGNATURE, k);
      assert [] + gs == gs && [] + [SIGNATURE] == [SIGNATURE];
    }
  }

  /** Where the bytes that steer the conversion go. */
  lemma Block0Mirrors(s: seq<u8>, toCpu: bool)
    requires |s| == BLOCK_SIZE && DriversFit(s, toCpu) && Recognised(s, toCpu)
    ensures var fs := Block0Fields(s, toCpu);
      && Mirror(fs, 16) == 17 && Mirror(fs, 17) == 16
      && (fs[0] == SIGNATURE ==> Mirror(fs, 0) == 1 && Mirror(fs, 1) == 0)
      && (fs[0] != SIGNATURE ==> Mirror(fs, 0) == 0 && Mirror(fs, 1) == 1)
  {
    hide Recognised, DriverFields, DriverCount, Mirror, Flip, Get2;
    var gs := DriverFields(DriverCount(s, toCpu));
    DriverFieldsSeparate(DriverCount(s, toCpu));
    CountMirrors([], gs);
    CountMirrors([SIGNATURE], gs);
    SignatureMirrors(HEADER_FIELDS + gs);
    assert [] + HEADER_FIELDS + gs == HEADER_FIELDS + gs;
    assert [SIGNATURE] + HEADER_FIELDS + gs == [SIGNATURE] + (HEADER_FIELDS + gs);
    assert HEADER_FIELDS[0] == Field(2, 2);
  }

  /** A converted block zero is recognised by the opposite conversion, with the same number of drivers. */
  lemma Block0Kept(s: seq<u8>, toCpu: bool)
    requires |s| == BLOCK_SIZE && DriversFit(s, toCpu) && Recognised(s, toCpu)
    ensures var r := Block0Form(s, toCpu);
      && DriverCount(r, !toCpu) == DriverCount(s, toCpu)
      && Get2(if toCpu then r else Flip(r, SIGNATURE), 0) == BLOCK0_SIGNATURE
  {
    hide Mirror, FlipAll, DriverFields, DriversFit;
    var fs := Block0Fields(s, toCpu);
    Block0FieldsSeparate(s, toCpu);
    Block0Mirrors(s, toCpu);
    FlipAllAt(s, fs, 0);
    FlipAllAt(s, fs, 1);
    FlipAllAt(s, fs, 16);
    FlipAllAt(s, fs, 17);
  }

  lemma Block0Undone(s: seq<u8>)
    requires |s| == BLOCK_SIZE && DriversFit(s, false) && Get2(s, 0) == BLOCK0_SIGNATURE
    ensures DriversFit(Block0Form(s, false), true) && Block0Form(Block0Form(s, false), true) == s
  {
    hide FlipAll, Flip, Get2, DriverFields;
    var r := Block0Form(s, false);
    Block0Kept(s, false);
    Block0FieldsSeparate(s, false);
    FlipTwice(s, Block0Fields(s, false));
    assert Block0Fields(r, true) == Block0Fields(s, false);
  }

  lemma SignatureReversed(s: seq<u8>)
    requires |s| == BLOCK_SIZE
    ensures Get2(Flip(s, SIGNATURE), 0) == BLOCK0_SIGNATURE <==> Get2(s, 0) == REVERSED_SIGNATURE
  {
  }

  /** Converting block zero to disk order and back restores all its bytes, unless it held a byte-reversed signature. */
  lemma Block0RoundTripIff(s: seq<u8>)
    requires |s| == BLOCK_SIZE && DriversFit(s, false) && DriversFit(Block0Form(s, false), true)
    ensures Block0Form(Block0Form(s, false), true) == s <==> Get2(s, 0) != REVERSED_SIGNATURE
  {
    hide FlipAll, Flip, Get2, DriverFields, DriversFit;
    SignatureReversed(s);
    if Recognised(s, false) {
      Block0Undone(s);
      assert BLOCK0_SIGNATURE != REVERSED_SIGNATURE;
    } else {
      FlipNone(s);
      assert Block0Form(s, false) == s;
      if Recognised(s, true) {
        Block0Kept(s, true);
        assert BLOCK0_SIGNATURE != REVERSED_SIGNATURE;
      }
    }
  }

  /** Whatever block zero is read, writing it back leaves the processor form unchanged. */
  lemma Block0WriteKeeps(s: seq<u8>)
    requires |s| == BLOCK_SIZE && DriversFit(s, true)
    ensures var r := Block0Form(s, true);
      DriversFit(r, false) && DriversFit(Block0Form(r, false), true) && Block0Form(Block0Form(r, false), true) == r
  {
    hide FlipAll, Flip, Get2, DriverFields;
    var r := Block0Form(s, true);
    SignatureReversed(s);
    if Recognised(s, true) {
      Block0Kept(s, true);
      Block0Undone(r);
    } else {
      FlipNone(s);
    }
  }

  // ----- partition map entries

  /** `n` consecutive four-byte fields. */
  function FourByteFields(first: nat, n: nat): (r: seq<Field>)
    ensures |r| == n && Separate(r)
    ensures forall i :: 0 <= i < n ==> r[i] == Field(first + 4 * i, 4)
    ensures forall f :: f in r ==> first <= f.first && f.first + f.size <= first + 4 * n
  {
    seq(n, i requires 0 <= i < n => Field(first + 4 * i, 4))
  }

  /** dpme_signature to dpme_pblocks, and dpme_lblock_start to dpme_checksum */
  const DPME_FIELDS := [Field(0, 2), Field(2, 2)] + FourByteFields(4, 3) + FourByteFields(80, 10)

  const MAGIC := Field(136, 4) // bzb_magic

  /** bzb_inode to bzb_tumount */
  const BZB_FIELDS := [Field(142, 2)] + FourByteFields(144, 4)

  /** The boot block structure is recognised, as block zero is. */
  predicate HasBzb(s: seq<u8>, toCpu: bool)
    requires |s| == BLOCK_SIZE
  {
    Get4(s, 136) == BZBMAGIC || (toCpu && Get4(Flip(s, MAGIC), 136) == BZBMAGIC)
  }

  /** The fields convert_bzb swaps. */
  function BzbFields(s: seq<u8>, toCpu: bool): seq<Field>
    requires |s| == BLOCK_SIZE
  {
    if !HasBzb(s, toCpu) then []
    else (if toCpu && Get4(Flip(s, MAGIC), 136) != BZBMAGIC then [] else [MAGIC]) + BZB_FIELDS
  }

  lemma BzbFieldsSeparate(s: seq<u8>, toCpu: bool)
    requires |s| == BLOCK_SIZE
    ensures Inside(DPME_FIELDS + BzbFields(s, toCpu), |s|) && Separate(DPME_FIELDS + BzbFields(s, toCpu))
  {
    hide HasBzb, Get4, Separate, FourByteFields;
    SeparatePair();
    DpmeFieldsSeparate();
    SeparateConcat([Field(142, 2)], FourByteFields(144, 4), 144);
    SeparateConcat([MAGIC], BZB_FIELDS, 140);
    SeparateConcat(DPME_FIELDS, BzbFields(s, toCpu), 120);
  }

  lemma SeparatePair()
    ensures Separate([Field(0, 2), Field(2, 2)]) && Separate([Field(142, 2)]) && Separate([MAGIC]) && Separate([])
  {
  }

  /** What convert_dpme makes of a block. */
  function DpmeForm(s: seq<u8>, toCpu: bool): (r: seq<u8>)
    requires |s| == BLOCK_SIZE
    ensures |r| == |s|
  {
    BzbFieldsSeparate(s, toCpu);
    FlipAll(s, DPME_FIELDS + BzbFields(s, toCpu))
  }

  lemma DpmeFieldsListed()
    ensures DPME_FIELDS == [Field(0, 2), Field(2, 2), Field(4, 4)] + [Field(8, 4), Field(12, 4), Field(80, 4)]
      + [Field(84, 4), Field(88, 4), Field(92, 4)] + [Field(96, 4), Field(100, 4), Field(104, 4)]
      + [Field(108, 4), Field(112, 4), Field(116, 4)]
  {
  }

  /** The fifteen swaps of convert_dpme. */
  method SwapDpme(bytes: array<u8>)
    requires bytes.Length == BLOCK_SIZE
    modifies bytes
    ensures Inside(DPME_FIELDS, BLOCK_SIZE) && bytes[..] == FlipAll(old(bytes[..]), DPME_FIELDS)
  {
    hide Flip, FlipAll, Inside, FourByteFields;
    ghost var s, done := bytes[..], [];
    FlipNone(s);
    Reverse2(bytes, 0);
    Reverse2(bytes, 2);
    Reverse4(bytes, 4);
    done := FlippedThree(s, done, Field(0, 2), Field(2, 2), Field(4, 4));
    Reverse4(bytes, 8);
    Reverse4(bytes, 12);
    Reverse4(bytes, 80);
    done := FlippedThree(s, done, Field(8, 4), Field(12, 4), Field(80, 4));
    Reverse4(bytes, 84);
    Reverse4(bytes, 88);
    Reverse4(bytes, 92);
    done := FlippedThree(s, done, Field(84, 4), Field(88, 4), Field(92, 4));
    Reverse4(bytes, 96);
    Reverse4(bytes, 100);
    Reverse4(bytes, 104);
    done := FlippedThree(s, done, Field(96, 4), Field(100, 4), Field(104, 4));
    Reverse4(bytes, 108);
    Reverse4(bytes, 112);
    Reverse4(bytes, 116);
    done := FlippedThree(s, done, Field(108, 4), Field(112, 4), Field(116, 4));
    DpmeFieldsListed();
    assert done == DPME_FIELDS;
  }

  lemma FlippedThree(s: seq<u8>, fs: seq<Field>, f: Field, g: Field, h: Field) returns (gs: seq<Field>)
    requires Inside(fs, |s|) && f.first + f.size <= |s| && g.first + g.size <= |s| && h.first + h.size <= |s|
    ensures gs == fs + [f, g, h] && Inside(gs, |s|)
    ensures FlipAll(s, gs) == Flip(Flip(Flip(FlipAll(s, fs), f), g), h)
  {
    hide Flip, FlipAll, Inside;
    FlipThree(s, fs, f, g, h);
    gs := fs + [f, g, h];
  }

  /** convert_bzb, on the boot block structure inside the entry */
  method ConvertBzb(bytes: array<u8>, toCpu: bool)
    requires bytes.Length == BLOCK_SIZE
    modifies bytes
    ensures Inside(BzbFields(old(bytes[..]), toCpu), BLOCK_SIZE)
    ensures bytes[..] == FlipAll(old(bytes[..]), BzbFields(old(bytes[..]), toCpu))
  {
    hide Flip, FlipAll, Inside, Get4, FourByteFields;
    ghost var s := bytes[..];
    FlipNone(s);
    ghost var magic: seq<Field> := [MAGIC];
    if toCpu {
      Reverse4(bytes, 136);
      if Get4(bytes[..], 136) != BZBMAGIC {
        Reverse4(bytes, 136);
        magic := [];
        FlipBack(s, MAGIC);
        if Get4(bytes[..], 136) != BZBMAGIC {
          return;
        }
      }
    } else {
      if Get4(bytes[..], 136) != BZBMAGIC {
        return;
      }
      Reverse4(bytes, 136);
    }
    FlipMore(s, [], MAGIC);
    assert [] + [MAGIC] == [MAGIC];
    Reverse2(bytes, 142);
    Reverse4(bytes, 144);
    Reverse4(bytes, 148);
    Reverse4(bytes, 152);
    Reverse4(bytes, 156);
    FlipMore(s, magic, Field(142, 2));
    FlipMore(s, magic + [Field(142, 2)], Field(144, 4));
    ghost var done := FlippedThree(s, magic + [Field(142, 2)] + [Field(144, 4)], Field(148, 4), Field(152, 4),
        Field(156, 4));
    BzbFieldsListed();
    assert done == magic + BZB_FIELDS;
  }

  lemma BzbFieldsListed()
    ensures BZB_FIELDS == [Field(142, 2), Field(144, 4), Field(148, 4), Field(152, 4), Field(156, 4)]
  {
  }

  /** convert_dpme */
  method ConvertDpme(bytes: array<u8>, toCpu: bool)
    requires bytes.Length == BLOCK_SIZE
    modifies bytes
    ensures bytes[..] == DpmeForm(old(bytes[..]), toCpu)
  {
    hide Flip, FlipAll, Inside, Get4, FourByteFields, BzbFields;
    ghost var s := bytes[..];
    SwapDpme(bytes);
    MagicApart(s, toCpu);
    ConvertBzb(bytes, toCpu);
    FlipConcat(s, DPME_FIELDS, BzbFields(s, toCpu));
  }

  /** The fields of the entry proper lie outside the boot block structure. */
  lemma MagicApart(s: seq<u8>, toCpu: bool)
    requires |s| == BLOCK_SIZE && Inside(DPME_FIELDS, BLOCK_SIZE)
    ensures BzbFields(FlipAll(s, DPME_FIELDS), toCpu) == BzbFields(s, toCpu)
  {
    hide FlipAll, Mirror, FourByteFields, Inside;
    DpmeFieldsSeparate();
    hide Separate, BzbFields, Get4;
    var r := FlipAll(s, DPME_FIELDS);
    forall k | 136 <= k < 140 ensures r[k] == s[k] {
      MirrorBelow(DPME_FIELDS, k, 120);
      FlipAllAt(s, DPME_FIELDS, k);
    }
    SameMagic(r, s, toCpu);
  }

  lemma SameMagic(r: seq<u8>, s: seq<u8>, toCpu: bool)
    requires |r| == |s| == BLOCK_SIZE && forall k :: 136 <= k < 140 ==> r[k] == s[k]
    ensures BzbFields(r, toCpu) == BzbFields(s, toCpu)
  {
    hide FourByteFields;
    assert Get4(r, 136) == Get4(s, 136);
    forall k | 136 <= k < 140 ensures Flip(r, MAGIC)[k] == Flip(s, MAGIC)[k] {
      FlipAt(r, MAGIC, k);
      FlipAt(s, MAGIC, k);
    }
    hide Flip;
    assert Get4(Flip(r, MAGIC), 136) == Get4(Flip(s, MAGIC), 136);
  }

  lemma DpmeFieldsSeparate()
    ensures Separate(DPME_FIELDS)
    ensures forall f :: f in DPME_FIELDS ==> f.first + f.size <= 120
  {
    hide Separate, FourByteFields;
    SeparatePair();
    SeparateConcat([Field(0, 2), Field(2, 2)], FourByteFields(4, 3), 4);
    SeparateConcat([Field(0, 2), Field(2, 2)] + FourByteFields(4, 3), FourByteFields(80, 10), 16);
  }

  // ----- converting an entry there and back

  lemma MagicMirrors(s: seq<u8>, toCpu: bool, k: int)
    requires |s| == BLOCK_SIZE && 136 <= k < 140
    ensures Mirror(DPME_FIELDS + BzbFields(s, toCpu), k) ==
      if BzbFields(s, toCpu) != [] && BzbFields(s, toCpu)[0] == MAGIC then 275 - k else k
  {
    hide Mirror, FourByteFields, HasBzb, Get4, Flip;
    DpmeFieldsSeparate();
    var fs := BzbFields(s, toCpu);
    MirrorBelow(DPME_FIELDS, k, 120);
    MirrorLow(DPME_FIELDS, BZB_FIELDS, k);
    MirrorLow(DPME_FIELDS + [MAGIC], BZB_FIELDS, k);
    MirrorLast(DPME_FIELDS, MAGIC, k);
    assert DPME_FIELDS + ([MAGIC] + BZB_FIELDS) == DPME_FIELDS + [MAGIC] + BZB_FIELDS;
    assert DPME_FIELDS + ([] + BZB_FIELDS) == DPME_FIELDS + BZB_FIELDS;
    assert DPME_FIELDS + [] == DPME_FIELDS;
    assert BZB_FIELDS[0] == Field(142, 2);
  }

  /** After conversion the boot block magic is in the other order, if it was recognised, and else unchanged. */
  lemma MagicKept(s: seq<u8>, toCpu: bool)
    requires |s| == BLOCK_SIZE
    ensures var r := DpmeForm(s, toCpu);
      && (!HasBzb(s, toCpu) ==> Get4(r, 136) == Get4(s, 136))
      && (HasBzb(s, toCpu) ==> Get4(if toCpu then r else Flip(r, MAGIC), 136) == BZBMAGIC)
  {
    hide Mirror, FourByteFields, FlipAll, Inside, Separate;
    BzbFieldsSeparate(s, toCpu);
    var fs := DPME_FIELDS + BzbFields(s, toCpu);
    forall k | 136 <= k < 140
      ensures DpmeForm(s, toCpu)[k] ==
        s[if BzbFields(s, toCpu) != [] && BzbFields(s, toCpu)[0] == MAGIC then 275 - k else k]
    {
      MagicMirrors(s, toCpu, k);
      FlipAllAt(s, fs, k);
    }
    BzbFieldsListed();
  }

  lemma MagicReversed(s: seq<u8>)
    requires |s| == BLOCK_SIZE
    ensures Get4(Flip(s, MAGIC), 136) == BZBMAGIC <==> Get4(s, 136) == REVERSED_BZBMAGIC
  {
    BytesOf(s[139], s[138], s[137], s[136], 0xBE, 0xBA, 0xAD, 0xAB);
    BytesOf(s[136], s[137], s[138], s[139], 0xAB, 0xAD, 0xBA, 0xBE);
  }

  lemma BytesOf(a0: int, a1: int, a2: int, a3: int, b0: int, b1: int, b2: int, b3: int)
    requires 0 <= a0 < 0x100 && 0 <= a1 < 0x100 && 0 <= a2 < 0x100
    requires 0 <= b0 < 0x100 && 0 <= b1 < 0x100 && 0 <= b2 < 0x100
    ensures (a0 + 0x100 * a1 + 0x1_0000 * (a2 + 0x100 * a3) == b0 + 0x100 * b1 + 0x1_0000 * (b2 + 0x100 * b3))
      <==> (a0 == b0 && a1 == b1 && a2 == b2 && a3 == b3)
  {
  }

  lemma DpmeUndone(s: seq<u8>)
    requires |s| == BLOCK_SIZE && Get4(s, 136) != REVERSED_BZBMAGIC
    ensures DpmeForm(DpmeForm(s, false), true) == s
  {
    hide FlipAll, Flip, Get4, FourByteFields, Inside, Separate;
    MagicReversed(s);
    MagicReversed(DpmeForm(s, false));
    MagicKept(s, false);
    BzbFieldsSeparate(s, false);
    FlipTwice(s, DPME_FIELDS + BzbFields(s, false));
    assert BzbFields(DpmeForm(s, false), true) == BzbFields(s, false);
  }

  /** Converting an entry to disk order and back restores it, unless it held a byte-reversed boot block magic. */
  lemma DpmeRoundTripIff(s: seq<u8>)
    requires |s| == BLOCK_SIZE
    ensures DpmeForm(DpmeForm(s, false), true) == s <==> Get4(s, 136) != REVERSED_BZBMAGIC
  {
    hide FlipAll, Flip, Get4, FourByteFields, Inside, Separate;
    if Get4(s, 136) == REVERSED_BZBMAGIC {
      var r := DpmeForm(s, false);
      assert BZBMAGIC != REVERSED_BZBMAGIC;
      MagicKept(s, false);
      MagicReversed(r);
      MagicKept(r, true);
    } else {
      DpmeUndone(s);
    }
  }

  /** Whatever entry is read, writing it back leaves the processor form unchanged. */
  lemma DpmeWriteKeeps(s: seq<u8>)
    requires |s| == BLOCK_SIZE
    ensures var r := DpmeForm(s, true); DpmeForm(DpmeForm(r, false), true) == r
  {
    hide FlipAll, Flip, Get4, FourByteFields, Inside, Separate;
    assert BZBMAGIC != REVERSED_BZBMAGIC;
    MagicReversed(s);
    MagicKept(s, true);
    DpmeUndone(DpmeForm(s, true));
  }
}
