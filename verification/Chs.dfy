/**
 Cylinder, head and sector addresses in the partition records of a DOS
 partition table (fdisk.c).  The bit operations of the macros are written as
 the arithmetic they perform on the bytes of a record.
 */
module Chs {
  import opened Words

  const EXTENDED: u8 := 5
  const LINUX_NATIVE: u8 := 0x83
  const CYLINDER_LIMIT := 1024 // cylinder numbers have ten bits

  // ----- division, wrapped so that a proof can do without its laws

  function Div(a: nat, d: nat): (q: nat)
    requires 0 < d
    ensures q <= a
  {
    QuotientBelow(a, d, a / d, a % d);
    a / d
  }

  lemma QuotientBelow(a: nat, d: nat, q: int, r: nat)
    requires 0 < d && a == d * q + r && r < d
    ensures q <= a
  {
    if 0 < q {
      Monotone(q, 1, d);
    }
  }

  function Mod(a: nat, d: nat): nat
    requires 0 < d
  {
    a % d
  }

  lemma DivMod(a: nat, d: nat)
    requires 0 < d
    ensures a == d * Div(a, d) + Mod(a, d) && Mod(a, d) < d
  {
  }

  lemma Quotient(a: nat, d: nat, q: int, r: int)
    requires 0 < d && 0 <= r < d && a == d * q + r
    ensures Div(a, d) == q && Mod(a, d) == r
  {
    hide Div, Mod;
    DivMod(a, d);
    var e := q - Div(a, d);
    assert d * e == d * q - d * Div(a, d);
    assert 1 <= e ==> d <= d * e;
    assert e <= -1 ==> d * e + d <= 0;
  }

  // ----- addresses

  datatype Geometry = Geometry(heads: nat, sectors: nat, cylinders: nat) {
    predicate Sane() {
      1 <= heads <= 256 && 1 <= sectors <= 63
    }

    /** Sectors in a cylinder. */
    function Cylinder(): nat {
      heads * sectors
    }

    /** full_bits: the sectors that ten-bit cylinder numbers can address */
    function FullBits(): nat {
      CYLINDER_LIMIT * Cylinder()
    }
  }

  /** The three bytes of an address: two high bits of the cylinder sit above the sector number. */
  datatype Address = Address(head: u8, sector: u8, cyl: u8) {
    /** The macro `sector`. */
    function Sector(): nat {
      sector % 64
    }

    /** The macro `cylinder`. */
    function Cylinder(): nat {
      cyl + 256 * (sector / 64)
    }
  }

  /** The macro `calculate`; sector number 0 wraps below zero. */
  function Calculate(g: Geometry, a: Address): u32
    requires g.Sane()
  {
    CalculateBound(g, a);
    var linear := a.Sector() - 1 + g.sectors * (a.head + g.heads * a.Cylinder());
    if linear < 0 then linear + U32 else linear
  }

  lemma CalculateBound(g: Geometry, a: Address)
    requires g.Sane()
    ensures -1 <= a.Sector() - 1 + g.sectors * (a.head + g.heads * a.Cylinder()) < U32
  {
    var c := a.Cylinder();
    ProductBound(g.heads, c, 256, 1023);
    ProductBound(g.sectors, a.head + g.heads * c, 63, 255 + 256 * 1023);
  }

  lemma ProductBound(a: nat, b: nat, m: nat, n: nat)
    requires a <= m && b <= n
    ensures 0 <= a * b <= m * n
  {
    assert a * b <= m * b <= m * n;
  }

  /** The macro `set_hsc`. */
  function SetHsc(g: Geometry, linear: u32): (a: Address)
    requires g.Sane()
    ensures a.Sector() == Mod(linear, g.sectors) + 1
    ensures a.head == Mod(Div(linear, g.sectors), g.heads)
    ensures a.Cylinder() == Mod(Div(Div(linear, g.sectors), g.heads), CYLINDER_LIMIT)
  {
    hide Div, Mod;
    DivMod(linear, g.sectors);
    DivMod(Div(linear, g.sectors), g.heads);
    var track, x := Div(linear, g.sectors), Mod(linear, g.sectors);
    Pack(Mod(track, g.heads), x + 1, Div(track, g.heads))
  }

  function Pack(head: u8, sector: nat, cylinder: nat): (a: Address)
    requires sector < 64
    ensures a.Sector() == sector && a.head == head && a.Cylinder() == Mod(cylinder, CYLINDER_LIMIT)
  {
    Address(head, sector + 64 * (cylinder / 256 % 4), cylinder % 256)
  }

  /** The cylinder, head and sector that long2chs finds. */
  function Long2Chs(g: Geometry, linear: u32): (nat, nat, nat)
    requires g.Sane()
  {
    CylinderPositive(g);
    var rest := Mod(linear, g.Cylinder());
    (Div(linear, g.Cylinder()), Div(rest, g.sectors), Mod(rest, g.sectors) + 1)
  }

  lemma CylinderPositive(g: Geometry)
    requires g.Sane()
    ensures 0 < g.Cylinder() && 0 < g.FullBits()
  {
    Monotone(g.heads, 1, g.sectors);
  }

  /** The physical triple that check_consistency takes out of a record. */
  function Physical(a: Address): (nat, nat, nat) {
    (a.Cylinder(), a.head as nat, a.Sector())
  }

  // ----- the two encoders agree

  /** The digits of a linear sector in a geometry. */
  lemma Digits(linear: nat, s: nat, h: nat)
    requires 0 < s && 0 < h
    ensures 0 < h * s
    ensures Div(Div(linear, s), h) == Div(linear, h * s)
    ensures Mod(Div(linear, s), h) == Div(Mod(linear, h * s), s)
    ensures Mod(linear, s) == Mod(Mod(linear, h * s), s)
    ensures linear == h * s * Div(linear, h * s) + Mod(linear, s) + s * Mod(Div(linear, s), h)
    ensures Mod(linear, s) + s * Mod(Div(linear, s), h) < h * s
  {
    hide Div, Mod;
    var t, x := Div(linear, s), Mod(linear, s);
    var c, y := Div(t, h), Mod(t, h);
    DivMod(linear, s);
    DivMod(t, h);
    Carry(s, h, c, y, x);
    Quotient(linear, h * s, c, x + s * y);
    Quotient(x + s * y, s, y, x);
  }

  lemma Carry(s: nat, h: nat, c: nat, y: nat, x: nat)
    requires x < s && y < h
    ensures s * (h * c + y) + x == h * s * c + (x + s * y)
    ensures 0 <= x + s * y < h * s
  {
    Associate(s, h, c);
    Monotone(s, y + 1, h);
  }

  lemma Associate(a: int, b: int, c: int)
    ensures a * (b * c) == b * a * c
  {
  }

  lemma Monotone(d: nat, a: int, b: int)
    requires a <= b
    ensures d * a <= d * b
  {
  }

  // ----- an address determines its sector up to the cylinders that do not fit

  /** Encoding and decoding loses exactly the multiples of full_bits. */
  lemma CalculateSetHsc(g: Geometry, linear: u32)
    requires g.Sane()
    ensures 0 < g.FullBits() && Calculate(g, SetHsc(g, linear)) == Mod(linear, g.FullBits())
  {
    hide Div, Mod, SetHsc;
    CylinderPositive(g);
    Digits(linear, g.sectors, g.heads);
    var x, y := Mod(linear, g.sectors), Mod(Div(linear, g.sectors), g.heads);
    var c := Div(linear, g.Cylinder());
    DigitBounds(linear, g.sectors, g.heads);
    Folded(g.sectors, g.heads, c, y, x);
    CalculateDigits(g, SetHsc(g, linear), x, y, Mod(c, CYLINDER_LIMIT));
  }

  lemma DigitBounds(linear: nat, s: nat, h: nat)
    requires 0 < s && 0 < h
    ensures Mod(linear, s) < s && Mod(Div(linear, s), h) < h
  {
    hide Div, Mod;
    DivMod(linear, s);
    DivMod(Div(linear, s), h);
  }

  /** The sector that an address with these digits stands for. */
  lemma CalculateDigits(g: Geometry, a: Address, x: nat, y: nat, r: nat)
    requires g.Sane() && x < g.sectors && y < g.heads
    requires a.Sector() == x + 1 && a.head == y && a.Cylinder() == r
    ensures Calculate(g, a) == g.heads * g.sectors * r + (x + g.sectors * y)
  {
    Carry(g.sectors, g.heads, r, y, x);
  }

  /** Cutting the cylinder down to ten bits takes the sector modulo full_bits. */
  lemma Folded(s: nat, h: nat, c: nat, y: nat, x: nat)
    requires 0 < s && 0 < h && x < s && y < h && 0 < h * s
    ensures Mod(h * s * c + (x + s * y), CYLINDER_LIMIT * (h * s)) == h * s * Mod(c, CYLINDER_LIMIT) + (x + s * y)
  {
    hide Div, Mod;
    DivMod(c, CYLINDER_LIMIT);
    var q, r := Div(c, CYLINDER_LIMIT), Mod(c, CYLINDER_LIMIT);
    Carry(s, h, r, y, x);
    Thousands(h * s, q, r, x + s * y);
    Quotient(h * s * c + (x + s * y), CYLINDER_LIMIT * (h * s), q, h * s * r + (x + s * y));
  }

  lemma Thousands(d: nat, q: nat, r: nat, z: nat)
    requires 0 < d && r < CYLINDER_LIMIT && z < d
    ensures d * (CYLINDER_LIMIT * q + r) + z == CYLINDER_LIMIT * d * q + (d * r + z)
    ensures 0 <= d * r + z < CYLINDER_LIMIT * d
  {
    Associate(d, CYLINDER_LIMIT, q);
    Monotone(d, r + 1, CYLINDER_LIMIT);
  }

  /** The largest sector up to `start` that `calcul` may stand for, if it is not beyond `start`. */
  function RoundedTo(calcul: nat, start: nat, fullBits: nat): (r: nat)
    requires 0 < fullBits
    ensures if calcul <= start then r <= start else r == calcul
  {
    if calcul <= start then
      (DivMod(start - calcul, fullBits);
       start - Mod(start - calcul, fullBits))
    else calcul
  }

  /** rounded */
  method Rounded(g: Geometry, calcul: u32, start: u32) returns (r: u32)
    requires g.Sane() && calcul + g.FullBits() < U32 && start + g.FullBits() < U32
    ensures 0 < g.FullBits() && r == RoundedTo(calcul, start, g.FullBits())
  {
    hide Div, Mod;
    r := calcul;
    var fullBits := g.FullBits();
    CylinderPositive(g);
    if fullBits == 0 {
      return;
    }
    ghost var turns := 0;
    while r + fullBits <= start
      invariant calcul <= r && r == calcul + fullBits * turns && 0 <= turns
      invariant calcul < r ==> r <= start
      decreases start - r
    {
      assert fullBits * (turns + 1) == fullBits * turns + fullBits;
      r := r + fullBits;
      turns := turns + 1;
    }
    if calcul <= start {
      Quotient(start - calcul, fullBits, turns, start - r);
    }
  }

  /** A sector encoded without clamping is recovered from its address. */
  lemma ChsRecovery(g: Geometry, linear: u32)
    requires g.Sane()
    ensures 0 < g.FullBits() && RoundedTo(Calculate(g, SetHsc(g, linear)), linear, g.FullBits()) == linear
  {
    hide SetHsc, Calculate, Div, Mod;
    CalculateSetHsc(g, linear);
    WholeTurns(linear, g.FullBits());
  }

  lemma WholeTurns(n: nat, d: nat)
    requires 0 < d
    ensures Mod(n, d) <= n && Mod(n - Mod(n, d), d) == 0
  {
    hide Div, Mod;
    DivMod(n, d);
    Monotone(d, 0, Div(n, d));
    Quotient(n - Mod(n, d), d, Div(n, d), 0);
  }

  // ----- partition records

  /** An entry of a partition table (struct partition). */
  datatype Part = Part(boot: u8, chs: Address, kind: u8, endChs: Address, start: u32, count: u32)

  const NO_ADDRESS := Address(0, 0, 0)
  const NO_PART := Part(0, NO_ADDRESS, 0, NO_ADDRESS, 0, 0)

  /** With the DOS compatibility flag, sectors beyond cylinder 1023 get the last address there is. */
  function Clamp(g: Geometry, dos: bool, linear: u32): (r: u32)
    requires g.Sane()
    ensures r == if dos && g.FullBits() <= linear then g.FullBits() - 1 else linear
  {
    hide Div;
    CylinderPositive(g);
    CylinderOver(linear, g.Cylinder());
    if dos && Div(linear, g.Cylinder()) > CYLINDER_LIMIT - 1 then
      g.heads * g.sectors * CYLINDER_LIMIT - 1
    else linear
  }

  lemma CylinderOver(n: nat, d: nat)
    requires 0 < d
    ensures Div(n, d) > CYLINDER_LIMIT - 1 <==> CYLINDER_LIMIT * d <= n
  {
    hide Div, Mod;
    DivMod(n, d);
    var q := Div(n, d);
    if q < CYLINDER_LIMIT {
      Monotone(d, q + 1, CYLINDER_LIMIT);
    } else {
      Monotone(d, CYLINDER_LIMIT, q);
    }
  }

  /** set_partition: the record for the sectors start..stop of a table at `offset`. */
  function SetPartition(g: Geometry, dos: bool, start: u32, stop: u32, kind: u8, offset: u32): Part
    requires g.Sane()
  {
    Part(0, SetHsc(g, Clamp(g, dos, start)), kind, SetHsc(g, Clamp(g, dos, stop)),
         Sub32(start, offset), Add32(Sub32(stop, start), 1))
  }

  /**
   The address `a` stands for sector `linear`, up to the cylinders that do not fit; with the DOS
   compatibility flag it is the last address there is if they do not.
   */
  predicate Addresses(g: Geometry, dos: bool, linear: u32, a: Address)
    requires g.Sane() && 0 < g.FullBits()
  {
    && a.head < g.heads && 1 <= a.Sector() <= g.sectors
    && if dos && g.FullBits() <= linear then
         a.Cylinder() == 1023 && a.head == g.heads - 1 && a.Sector() == g.sectors
       else
         linear == g.FullBits() * Div(linear, g.FullBits())
           + g.Cylinder() * a.Cylinder() + g.sectors * a.head + a.Sector() - 1
  }

  lemma Encoded(g: Geometry, linear: u32)
    requires g.Sane()
    ensures 0 < g.FullBits() && Addresses(g, false, linear, SetHsc(g, linear))
  {
    hide Div, Mod, SetHsc, Calculate;
    CylinderPositive(g);
    var a := SetHsc(g, linear);
    CalculateSetHsc(g, linear);
    DivMod(linear, g.FullBits());
    DigitBounds(linear, g.sectors, g.heads);
    CalculateDigits(g, a, a.Sector() - 1, a.head, a.Cylinder());
  }

  lemma LastAddress(g: Geometry)
    requires g.Sane()
    ensures 0 < g.FullBits() <= U32
    ensures var a := SetHsc(g, g.FullBits() - 1);
      a.Cylinder() == 1023 && a.head == g.heads - 1 && a.Sector() == g.sectors
  {
    hide Div, Mod;
    CylinderPositive(g);
    var s, h := g.sectors, g.heads;
    ProductBound(h, s, 256, 63);
    Carry(s, h, 1023, h - 1, s - 1);
    assert s * (h * 1023 + (h - 1)) + (s - 1) == h * s * 1024 - 1;
    Quotient(g.FullBits() - 1, s, h * 1023 + (h - 1), s - 1);
    Quotient(h * 1023 + (h - 1), h, 1023, h - 1);
    Quotient(1023, CYLINDER_LIMIT, 0, 1023);
  }

  lemma ClampAddresses(g: Geometry, dos: bool, linear: u32)
    requires g.Sane()
    ensures 0 < g.FullBits() && Addresses(g, dos, linear, SetHsc(g, Clamp(g, dos, linear)))
  {
    hide Div, Mod, SetHsc;
    CylinderPositive(g);
    LastAddress(g);
    Encoded(g, linear);
    Encoded(g, Clamp(g, dos, linear));
  }

  /** What set_partition writes: the sectors counted from the table at `offset`, and the addresses of both ends. */
  lemma PartitionWritten(g: Geometry, dos: bool, start: u32, stop: u32, kind: u8, offset: u32)
    requires g.Sane() && offset <= start <= stop < U32 - 1
    ensures 0 < g.FullBits()
    ensures var p := SetPartition(g, dos, start, stop, kind, offset);
      && p.boot == 0 && p.kind == kind && offset + p.start == start && start + p.count == stop + 1
      && Addresses(g, dos, start, p.chs) && Addresses(g, dos, stop, p.endChs)
  {
    hide SetHsc, Clamp, Addresses;
    ClampAddresses(g, dos, start);
    ClampAddresses(g, dos, stop);
  }

  /** The start that check_bounds computes from the address of a partition at `start`. */
  function FirstOf(g: Geometry, a: Address, start: u32): (r: u32)
    requires g.Sane()
    ensures Calculate(g, a) <= start ==> r <= start
  {
    CylinderPositive(g);
    RoundedTo(Calculate(g, a), start, g.FullBits())
  }

  /**
   What check_bounds takes for the start of a partition is never after its true
   start and less than full_bits before it; it is the true start exactly if the
   address was not clamped, or was clamped to a sector the rounding reaches.
   */
  lemma FirstOfWritten(g: Geometry, dos: bool, start: u32, stop: u32, kind: u8, offset: u32)
    requires g.Sane()
    ensures 0 < g.FullBits()
    ensures var r := FirstOf(g, SetPartition(g, dos, start, stop, kind, offset).chs, start);
      && r <= start < r + g.FullBits()
      && (r == start <==> !dos || start < g.FullBits() || Mod(start, g.FullBits()) == g.FullBits() - 1)
  {
    hide SetHsc, Calculate, Div, Mod;
    CylinderPositive(g);
    var d, c := g.FullBits(), Clamp(g, dos, start);
    CalculateSetHsc(g, c);
    if c == start {
      ChsRecovery(g, start);
    } else {
      Quotient(d - 1, d, 0, d - 1);
      DivMod(start - (d - 1), d);
      LastResidue(start, d);
    }
  }

  /** An address that set_partition writes never lies after its sector. */
  lemma WrittenAddress(g: Geometry, dos: bool, linear: u32)
    requires g.Sane()
    ensures Calculate(g, SetHsc(g, Clamp(g, dos, linear))) <= linear
  {
    hide SetHsc, Calculate, Div, Mod;
    CalculateSetHsc(g, Clamp(g, dos, linear));
    WholeTurns(Clamp(g, dos, linear), g.FullBits());
  }

  /** The distance above d - 1 is a multiple of d just when the residue is d - 1. */
  lemma LastResidue(n: nat, d: nat)
    requires 0 < d <= n
    ensures Mod(n - (d - 1), d) == 0 <==> Mod(n, d) == d - 1
  {
    hide Div, Mod;
    DivMod(n, d);
    DivMod(n - (d - 1), d);
    if Mod(n - (d - 1), d) == 0 {
      Quotient(n, d, Div(n - (d - 1), d), d - 1);
    } else if Mod(n, d) == d - 1 {
      Quotient(n - (d - 1), d, Div(n, d), 0);
    }
  }

  /**
   On a disk that ten-bit cylinder numbers can address, check_consistency finds
   nothing to report about the begin and end of a primary entry that
   set_partition wrote: set_hsc and long2chs agree.
   */
  lemma PrimaryConsistent(g: Geometry, dos: bool, start: u32, stop: u32, kind: u8)
    requires g.Sane() && g.cylinders <= CYLINDER_LIMIT && start <= stop < g.cylinders * g.Cylinder()
    ensures var p := SetPartition(g, dos, start, stop, kind, 0);
      && p.start == start && Sub32(Add32(p.start, p.count), 1) == stop
      && Physical(p.chs) == Long2Chs(g, p.start)
      && Physical(p.endChs) == Long2Chs(g, Sub32(Add32(p.start, p.count), 1))
  {
    hide SetHsc, Div, Mod, Long2Chs;
    Monotone(g.Cylinder(), g.cylinders, CYLINDER_LIMIT);
    EncodersAgree(g, start);
    EncodersAgree(g, stop);
  }

  lemma EncodersAgree(g: Geometry, linear: u32)
    requires g.Sane() && linear < g.FullBits()
    ensures Physical(SetHsc(g, linear)) == Long2Chs(g, linear)
  {
    hide SetHsc, Div, Mod;
    CylinderPositive(g);
    Digits(linear, g.sectors, g.heads);
    var q := Div(linear, g.Cylinder());
    CylinderOver(linear, g.Cylinder());
    Quotient(q, CYLINDER_LIMIT, 0, q);
  }
}
