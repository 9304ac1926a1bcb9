/**
 The same files as bytes (write_partition_map in partition_map.c, convert_dpme in
 convert.c): what the 512-byte blocks mean, and that writing them means what
 MapFiles.dfy says.
 */
module ByteFiles {
  import opened Words
  import opened MapModel
  import opened Convert
  import opened MapFiles

  type Sector = s: seq<u8> | |s| == BLOCK_SIZE witness seq(BLOCK_SIZE, _ => 0)

  /** The readable blocks of a device, as bytes. */
  type Sectors = map<int, Sector>

  // ----- what a block means

  /** A C string. */
  function Text(s: seq<u8>): string {
    if s == [] || s[0] == 0 then "" else [s[0] as char] + Text(s[1..])
  }

  function TypeOf(name: string): PartType {
    if name == "Apple_Free" then FreeType
    else if name == "Apple_partition_map" then MapType
    else OtherType(name)
  }

  /** A partition map entry in memory; what the editor never looks at is kept as bytes. */
  function EntryOf(m: Sector): Block {
    GetBounds(m);
    Block(Get2(m, 0), Get4(m, 4),
      Dpme(Get4(m, 8), Get4(m, 12), Text(m[16..48]), TypeOf(Text(m[48..80])), Get4(m, 80), Get4(m, 84), Get4(m, 88),
           m[2..4] + m[92..]))
  }

  lemma GetBounds(m: Sector)
    ensures forall i :: 0 <= i <= 508 ==> 0 <= Get2(m, i) < 0x1_0000 && 0 <= Get4(m, i) < U32
  {
  }

  /** The same on the disk, where the bytes of its fields are in the other order. */
  function BlockOn(s: Sector): Block {
    EntryOf(DpmeForm(s, true))
  }

  function Meaning(disk: Sectors): (r: Image)
    ensures r.Keys == disk.Keys && forall x :: x in disk ==> r[x] == BlockOn(disk[x])
  {
    map x | x in disk :: BlockOn(disk[x])
  }

  // ----- writing bytes

  /** A buffer that an entry of a map with `count` entries may have: it came from a disk, or was made. */
  predicate Entered(m: Sector, count: u32) {
    && Get4(m, 136) != REVERSED_BZBMAGIC
    && EntryOf(m).signature == DPME_SIGNATURE && EntryOf(m).mapEntries == count
  }

  function Datas(ms: seq<Sector>): (r: seq<Dpme>)
    ensures |r| == |ms| && forall i :: 0 <= i < |r| ==> r[i] == EntryOf(ms[i]).data
  {
    seq(|ms|, i requires 0 <= i < |ms| => EntryOf(ms[i]).data)
  }

  /** The disk after the first `k` buffers are converted and written to blocks 1..k. */
  function WithBuffers(disk: Sectors, ms: seq<Sector>, k: nat): Sectors
    requires k <= |ms|
  {
    if k == 0 then disk else WithBuffers(disk, ms, k - 1)[k := DpmeForm(ms[k - 1], false)]
  }

  /** write_partition_map on buffers; `block0` is in disk order already. */
  function WrittenBytes(disk: Sectors, block0: Sector, ms: seq<Sector>, maximum: int): Sectors {
    var r := WithBuffers(disk[0 := block0], ms, |ms|);
    var next := |ms| + 1;
    if 0 < maximum && |ms| < maximum && next in r then r[next := r[next][0 := 0]] else r
  }

  /** What is written for a buffer means what the buffer means. */
  lemma EnteredMeans(m: Sector, count: u32)
    requires Entered(m, count)
    ensures BlockOn(DpmeForm(m, false)) == EntryBlock(EntryOf(m).data, count)
    ensures DpmeForm(DpmeForm(m, false), true) == m
  {
    hide DpmeForm, EntryOf, Get4;
    DpmeRoundTripIff(m);
  }

  lemma MeaningOf(disk: Sectors, x: int, s: Sector)
    ensures Meaning(disk[x := s]) == Meaning(disk)[x := BlockOn(s)]
  {
    hide BlockOn;
  }

  lemma WithBuffersStep(disk: Sectors, ms: seq<Sector>, k: nat)
    requires 0 < k <= |ms|
    ensures WithBuffers(disk, ms, k) == WithBuffers(disk, ms, k - 1)[k := DpmeForm(ms[k - 1], false)]
  {
    hide DpmeForm;
  }

  lemma {:induction false} WithBuffersMean(disk: Sectors, ms: seq<Sector>, count: u32, k: nat)
    requires k <= |ms| && forall m :: m in ms ==> Entered(m, count)
    ensures Meaning(WithBuffers(disk, ms, k)) == WithEntries(Meaning(disk), Datas(ms), count, k)
  {
    hide Entered, BlockOn, DpmeForm, Meaning, EntryOf, EntryBlock;
    if k != 0 {
      WithBuffersMean(disk, ms, count, k - 1);
      assert ms[k - 1] in ms;
      EnteredMeans(ms[k - 1], count);
      WithBuffersStep(disk, ms, k);
      hide WithBuffers;
      MeaningOf(WithBuffers(disk, ms, k - 1), k, DpmeForm(ms[k - 1], false));
    }
  }

  lemma HeadFirst(x: Field, y: Field, a: seq<Field>, b: seq<Field>, c: seq<Field>)
    ensures [x, y] + a + b + c == [x] + ([y] + a + b + c)
  {
  }

  lemma BzbAbove(s: Sector)
    ensures forall f :: f in BzbFields(s, true) ==> 136 <= f.first
  {
    hide HasBzb, Get4, Flip, FourByteFields;
  }

  /** The signature is swapped whatever else is. */
  lemma FieldsBegin(s: Sector)
    ensures var fs := DPME_FIELDS + BzbFields(s, true); Mirror(fs, 0) == 1 && Mirror(fs, 1) == 0
  {
    BzbAbove(s);
    hide Mirror, FourByteFields, BzbFields;
    var a, b, c := FourByteFields(4, 3), FourByteFields(80, 10), BzbFields(s, true);
    HeadFirst(SIGNATURE, Field(2, 2), a, b, c);
    assert forall f :: f in [Field(2, 2)] + a + b + c ==> 2 <= f.first;
    SignatureMirrors([Field(2, 2)] + a + b + c);
  }

  lemma ZapAt(s: Sector, fs: seq<Field>, k: nat)
    requires Inside(fs, BLOCK_SIZE) && Separate(fs) && Mirror(fs, 1) == 0 && k < BLOCK_SIZE
    ensures FlipAll(s[0 := 0], fs)[k] == FlipAll(s, fs)[1 := 0][k]
  {
    hide *;
    FlipAllAt(s[0 := 0], fs, k);
    FlipAllAt(s, fs, k);
    MirrorTwice(fs, k);
    MirrorTwice(fs, 1);
  }

  /** Clearing the first byte of a block on the disk clears the second of what is read. */
  lemma ZapForm(s: Sector)
    ensures DpmeForm(s[0 := 0], true) == DpmeForm(s, true)[1 := 0]
  {
    SameMagic(s[0 := 0], s, true);
    BzbFieldsSeparate(s, true);
    FieldsBegin(s);
    hide Mirror, FlipAll, FourByteFields, BzbFields, Separate, Inside;
    var fs := DPME_FIELDS + BzbFields(s, true);
    var z, r := FlipAll(s[0 := 0], fs), FlipAll(s, fs)[1 := 0];
    forall k | 0 <= k < BLOCK_SIZE ensures z[k] == r[k] {
      ZapAt(s, fs, k);
    }
  }

  lemma ZapMeans(s: Sector)
    ensures BlockOn(s[0 := 0]) == Zapped(BlockOn(s))
  {
    hide DpmeForm;
    ZapForm(s);
    ZapEntry(DpmeForm(s, true));
  }

  lemma ZapEntry(m: Sector)
    ensures EntryOf(m[1 := 0]) == Zapped(EntryOf(m))
  {
    var z := m[1 := 0];
    assert z[16..48] == m[16..48] && z[48..80] == m[48..80] && z[2..4] == m[2..4] && z[92..] == m[92..];
    hide Text, TypeOf;
  }

  /** Writing bytes means writing entries. */
  lemma WrittenMeans(disk: Sectors, block0: Sector, ms: seq<Sector>, count: u32, maximum: int)
    requires forall m :: m in ms ==> Entered(m, count)
    ensures Meaning(WrittenBytes(disk, block0, ms, maximum)) ==
      Written(Meaning(disk), BlockOn(block0), Datas(ms), count, maximum)
  {
    hide Entered, BlockOn, WithBuffers, WithEntries;
    WithBuffersMean(disk[0 := block0], ms, count, |ms|);
    MeaningOf(disk, 0, block0);
    var r := WithBuffers(disk[0 := block0], ms, |ms|);
    if |ms| + 1 in r {
      ZapMeans(r[|ms| + 1]);
    }
  }

  /** Reading gives every buffer back as it was, and the map opens to what the buffers mean. */
  lemma BytesOpen(disk: Sectors, block0: Sector, ms: seq<Sector>, count: u32, maximum: int)
    requires 0 < |ms| && Counts(count, |ms|) && forall m :: m in ms ==> Entered(m, count)
    ensures var r := WrittenBytes(disk, block0, ms, maximum);
      && Opens(Meaning(r)) && Meaning(r)[1].mapEntries == count && EntryCount(Meaning(r)) == |ms|
      && EntriesTo(Meaning(r), count, |ms|) && EntriesAt(Meaning(r), count, |ms|) == Datas(ms)
      && forall k :: 1 <= k <= |ms| ==> k in r && DpmeForm(r[k], true) == ms[k - 1]
  {
    hide Entered, BlockOn, DpmeForm, Meaning, Opens, EntriesTo, EntriesAt, Written, Counts, EntryOf;
    WrittenMeans(disk, block0, ms, count, maximum);
    WrittenOpens(Meaning(disk), BlockOn(block0), Datas(ms), count, maximum);
    var r := WrittenBytes(disk, block0, ms, maximum);
    forall k | 1 <= k <= |ms| ensures k in r && DpmeForm(r[k], true) == ms[k - 1] {
      BufferAt(disk[0 := block0], ms, |ms|, k);
      assert ms[k - 1] in ms;
      EnteredMeans(ms[k - 1], count);
    }
  }

  lemma {:induction false} BufferAt(disk: Sectors, ms: seq<Sector>, n: nat, k: nat)
    requires 1 <= k <= n <= |ms|
    ensures k in WithBuffers(disk, ms, n) && WithBuffers(disk, ms, n)[k] == DpmeForm(ms[k - 1], false)
  {
    hide DpmeForm;
    if k < n {
      BufferAt(disk, ms, n - 1, k);
    }
  }

  // ----- the loop over the buffers

  class ByteDevice {
    var sectors: Sectors

    /** read_block */
    method Read(num: int) returns (ok: bool, b: Sector)
      ensures ok == (num in sectors) && (ok ==> b == sectors[num])
    {
      ok := num in sectors;
      b := if ok then sectors[num] else seq(BLOCK_SIZE, _ => 0);
    }

    /** write_block */
    method Write(num: int, b: Sector)
      modifies this
      ensures sectors == old(sectors)[num := b]
    {
      sectors := sectors[num := b];
    }
  }

  /** What the buffers hold. */
  ghost function Buffers(arrays: seq<array<u8>>): (r: seq<Sector>)
    requires forall a :: a in arrays ==> a.Length == BLOCK_SIZE
    reads arrays
    ensures |r| == |arrays| && forall i :: 0 <= i < |r| ==> r[i] == arrays[i][..]
  {
    seq(|arrays|, i requires 0 <= i < |arrays| && arrays[i].Length == BLOCK_SIZE reads arrays => arrays[i][..])
  }

  /** One buffer is converted in place, written, and converted back. */
  method WriteBuffer(a: array<u8>, num: int, device: ByteDevice, ghost count: u32)
    requires a.Length == BLOCK_SIZE && Entered(a[..], count)
    modifies device, a
    ensures device.sectors == old(device.sectors)[num := DpmeForm(old(a[..]), false)] && a[..] == old(a[..])
  {
    hide Entered, DpmeForm;
    EnteredMeans(a[..], count);
    ConvertDpme(a, false);
    device.Write(num, a[..]);
    ConvertDpme(a, true);
  }

  /** So are all buffers, in disk order. */
  method WriteBuffers(arrays: seq<array<u8>>, device: ByteDevice, ghost count: u32)
    requires forall a :: a in arrays ==> a.Length == BLOCK_SIZE
    requires forall i, j :: 0 <= i < j < |arrays| ==> arrays[i] != arrays[j]
    requires forall m :: m in Buffers(arrays) ==> Entered(m, count)
    modifies device, arrays
    ensures device.sectors == WithBuffers(old(device.sectors), old(Buffers(arrays)), |arrays|)
    ensures Buffers(arrays) == old(Buffers(arrays))
  {
    hide Entered, DpmeForm;
    ghost var ms := Buffers(arrays);
    var k := 0;
    while k < |arrays|
      invariant 0 <= k <= |arrays| && Buffers(arrays) == ms
      invariant device.sectors == WithBuffers(old(device.sectors), ms, k)
    {
      assert arrays[k][..] == ms[k] && ms[k] in ms;
      WriteBuffer(arrays[k], k + 1, device, count);
      assert Buffers(arrays) == ms;
      k := k + 1;
    }
  }

  /** A block zero that writing leaves as it was: Block0WriteKeeps says that every one read from a disk is. */
  predicate Kept(b: Sector) {
    DriversFit(b, false) && DriversFit(Block0Form(b, false), true) && Block0Form(Block0Form(b, false), true) == b
  }

  /** write_partition_map on the buffers of a map. */
  method WriteMap(block0: array<u8>, arrays: seq<array<u8>>, device: ByteDevice, maximum: int, ghost count: u32)
    requires block0.Length == BLOCK_SIZE && block0 !in arrays && Kept(block0[..])
    requires forall a :: a in arrays ==> a.Length == BLOCK_SIZE
    requires forall i, j :: 0 <= i < j < |arrays| ==> arrays[i] != arrays[j]
    requires forall m :: m in Buffers(arrays) ==> Entered(m, count)
    modifies device, block0, arrays
    ensures DriversFit(old(block0[..]), false)
    ensures device.sectors ==
      WrittenBytes(old(device.sectors), Block0Form(old(block0[..]), false), old(Buffers(arrays)), maximum)
    ensures block0[..] == old(block0[..]) && Buffers(arrays) == old(Buffers(arrays))
  {
    hide Entered, DpmeForm, Block0Form, DriversFit, WithBuffers;
    ghost var ms, b := Buffers(arrays), block0[..];
    ConvertBlock0(block0, false);
    device.Write(0, block0[..]);
    ConvertBlock0(block0, true);
    assert Buffers(arrays) == ms;
    WriteBuffers(arrays, device, count);
    var i := |arrays|;
    if 0 < maximum && i < maximum {
      i := i + 1;
      var ok, s := device.Read(i);
      if ok {
        device.Write(i, s[0 := 0]);
      }
    }
  }
}
