/** Finding the size of a device by trial reads (compute_device_size in partition_map.c). */
module DeviceSize {
  import opened Words

  const FIRST_TRY: u32 := 1024
  const LAST_TRY: u32 := 0x4000_0000 // 1024 * 1024 * 1024
  const MOST_READS := 41

  function Power(k: nat): (r: nat)
    ensures 0 < r
  {
    if k == 0 then 1 else 2 * Power(k - 1)
  }

  /** How many times a search over `n` candidates can halve them. */
  function Halvings(n: nat): nat {
    if n == 0 then 0 else 1 + Halvings(n / 2)
  }

  lemma {:induction false} HalvingsBound(n: nat, k: nat)
    requires n < Power(k)
    ensures Halvings(n) <= k
  {
    if n != 0 {
      HalvingsBound(n / 2, k - 1);
    }
  }

  lemma {:induction false} HalvingsMonotone(m: nat, n: nat)
    requires m <= n
    ensures Halvings(m) <= Halvings(n)
  {
    if m != 0 {
      HalvingsMonotone(m / 2, n / 2);
    }
  }

  lemma {:induction false} PowerMonotone(j: nat, k: nat)
    requires j <= k
    ensures Power(j) <= Power(k)
  {
    if j < k {
      PowerMonotone(j, k - 1);
    }
  }

  lemma PowerBelow(j: nat, k: nat)
    requires Power(j) < Power(k)
    ensures j < k
  {
    if k <= j {
      PowerMonotone(k, j);
    }
  }

  lemma PowerNext(k: nat)
    ensures Power(k + 1) == 2 * Power(k)
  {
  }

  lemma HalvingsNext(n: nat)
    ensures 0 < n ==> Halvings(n) == 1 + Halvings(n / 2)
  {
  }

  lemma PowersOfTwo()
    ensures Power(10) == 1024 && Power(20) == 0x10_0000 && Power(30) == 0x4000_0000
  {
    assert Power(10) == 1024;
    assert Power(20) == 1024 * Power(10);
    assert Power(30) == 1024 * Power(20);
  }

  /** The trial block after `tries` reads that all succeeded, and the one after it. */
  lemma Doubled(tries: nat, r: nat)
    requires 2 <= tries && r == Power(tries + 18) && r < LAST_TRY
    ensures 1024 < r && 2 * r <= LAST_TRY && 2 * r == Power(tries + 19)
    ensures 2 * r < LAST_TRY ==> tries < 11
  {
    PowersOfTwo();
    PowerMonotone(20, tries + 18);
    PowerBelow(tries + 18, 30);
    PowerMonotone(tries + 19, 30);
    PowerNext(tries + 18);
    if 2 * r < LAST_TRY {
      PowerBelow(tries + 19, 30);
    }
  }

  /**
   compute_device_size, for a device on which `readable` tells the blocks that
   can be read.  The answer is the end of a readable stretch, or the largest
   size the probe can report, and takes at most 41 reads.
   */
  method ComputeDeviceSize(readable: nat -> bool) returns (size: u32, tries: nat)
    ensures size <= LAST_TRY + 1 && tries <= MOST_READS
    ensures 0 < size ==> readable(size - 1)
    ensures size <= LAST_TRY ==> !readable(size)
  {
    hide Power, Halvings;
    var l: u32, r: u32 := 0, FIRST_TRY;
    tries := 0;
    var found := readable(r);
    tries := 1;
    PowersOfTwo();
    while found
      invariant l <= r / 2 && (0 < l ==> readable(l)) && (2 <= tries ==> 0 < l)
      invariant 1 <= tries <= 11 && r == if tries == 1 then FIRST_TRY else Power(tries + 18)
      invariant r < LAST_TRY && found == readable(r)
      decreases LAST_TRY - r
    {
      if 2 <= tries {
        Doubled(tries, r);
      }
      l := r;
      if r <= 1024 {
        r := r * 1024;
      } else {
        r := r * 2;
      }
      if r >= LAST_TRY {
        break;
      }
      found := readable(r);
      tries := tries + 1;
    }
    HalvingsBound(r + 1 - l, 30);

    var x: u32 := 0;
    var valid := true;
    while l <= r
      invariant l <= r + 1 <= LAST_TRY + 1
      invariant 0 < l ==> readable(l - 1) || (readable(l) && l <= r)
      invariant r < LAST_TRY ==> !readable(r + 1) || (!readable(r) && l <= r)
      invariant r < l ==> l == if valid then x + 1 else x
      invariant tries + Halvings(r + 1 - l) <= MOST_READS
      decreases r + 1 - l
    {
      ghost var n := r + 1 - l;
      HalvingsNext(n);
      x := (l + r) / 2;
      valid := readable(x);
      tries := tries + 1;
      if valid {
        l := x + 1;
      } else if x > 0 {
        r := x - 1;
      } else {
        break;
      }
      HalvingsMonotone(r + 1 - l, n / 2);
    }
    if valid {
      x := x + 1;
    }
    size := x;
  }

  /** On a device that ends somewhere, the answer pinned down above is exact up to the probe's limit. */
  lemma ProbeExact(readable: nat -> bool, end: nat, size: nat)
    requires forall x: nat :: readable(x) <==> x < end
    requires size <= LAST_TRY + 1 && (0 < size ==> readable(size - 1)) && (size <= LAST_TRY ==> !readable(size))
    ensures size == if end <= LAST_TRY then end else LAST_TRY + 1
  {
  }

  /** compute_device_size on a device of `end` blocks. */
  method ProbeDevice(end: nat) returns (size: u32)
    ensures size == if end <= LAST_TRY then end else LAST_TRY + 1
  {
    var tries;
    var readable := (x: nat) => x < end;
    size, tries := ComputeDeviceSize(readable);
    ProbeExact(readable, end, size);
  }
}
