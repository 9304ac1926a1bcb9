/**
 What the search of add_partition finds (fdisk.c), given a list of answers, and what
 that means for the sectors and the questions.
 */
module GapModel {
  import opened Words
  import Chs

  datatype Gap = Aborted | NoSpace | Found(start: u32, stop: u32)

  /** What the search goes by, once check_bounds has filled `first` and `last`. */
  datatype Search = Search(
    first: seq<u32>, last: seq<u32>, offsets: seq<u32>, // by partition number
    lowest: u32, limit: u32,                            // the sectors that may be used
    hop: u32,                                           // sector_offset
    step: u32,                                          // how far behind a partition the search goes on
    extra: u32,                                         // 1 if a link sector must fit before the start
    unit: bool, factor: u32                             // unit_flag and display_factor
  ) {
    /** No sum of the search wraps around. */
    predicate Sound(top: nat) {
      && |first| == |last| == |offsets|
      && 1 <= step <= hop && extra <= 1 && 1 <= factor && (!unit ==> factor == 1)
      && lowest <= top + hop && limit <= top && top + hop + factor < U32
      && forall i :: 0 <= i < |last| ==> last[i] <= top && offsets[i] <= top
    }

    predicate Shaped() {
      |first| == |last| == |offsets| && 1 <= step && 1 <= hop && 1 <= factor && limit + factor + 1 < U32
    }

    /** Partition `i` keeps sector `x` from being a start. */
    predicate Blocks(i: int, x: int)
      requires 0 <= i < |first| && |first| == |last| == |offsets|
    {
      x == offsets[i] || first[i] <= x <= last[i]
    }

    /** Partition `i` begins, with its data or its link sector, in the sectors after `x` up to `y`. */
    predicate Begins(i: int, x: int, y: int)
      requires 0 <= i < |first| && |first| == |last| == |offsets|
    {
      x < offsets[i] <= y || x < first[i] <= y
    }

    predicate Unblocked(x: int)
      requires |first| == |last| == |offsets|
    {
      forall i :: 0 <= i < |first| ==> !Blocks(i, x)
    }

    /** The search cannot jump over sector `x`, and comes to rest there or before. */
    predicate Reachable(x: int)
      requires |first| == |last| == |offsets|
    {
      forall i :: 0 <= i < |first| ==>
        !(offsets[i] <= x < offsets[i] + hop) && !(first[i] <= x < last[i] + step) && !Blocks(i, x)
    }

    /** The sectors from `s` to `e` may be used, in sector units, and the first question comes before them. */
    predicate Free(s: int, e: int)
      requires |first| == |last| == |offsets|
    {
      && !unit && lowest + extra <= s <= e <= limit
      && Unblocked(s) && (exists g :: lowest <= g <= s - extra && Reachable(g))
      && forall i :: 0 <= i < |first| ==> !Begins(i, s, e)
    }

    /** Where a partition starts that is asked to start with cylinder `c`. */
    function CylinderStart(c: u32): int {
      if FirstSector(c, factor) < lowest + extra then lowest + extra else FirstSector(c, factor)
    }

    /** The last sector of cylinder `d`. */
    function CylinderEnd(d: u32): int {
      FirstSector(d, factor) + factor - 1
    }

    /**
     The cylinders from `c` to `d` may be used, as far as they lie above the lowest sector,
     and the first question comes before them.
     */
    predicate FreeCylinders(c: u32, d: u32)
      requires |first| == |last| == |offsets|
    {
      && unit && 1 <= c <= d && CylinderStart(c) <= CylinderEnd(c) && CylinderEnd(d) <= limit
      && Unblocked(CylinderStart(c))
      && (forall i :: 0 <= i < |first| ==> !Begins(i, CylinderStart(c), CylinderEnd(d)))
      && if FirstSector(c, factor) < lowest + extra then Unblocked(lowest)
         else exists g :: lowest <= g <= CylinderStart(c) - extra && Reachable(g)
    }

    /** Sector `y` may be used, and nothing begins behind sector `x` up to it. */
    predicate Beyond(x: int, y: int)
      requires |first| == |last| == |offsets|
    {
      y <= limit && forall i :: 0 <= i < |first| ==> !Begins(i, x, y)
    }

    /** Where a start at sector `x` is moved on account of partition `i`. */
    function Past(i: int, x: int): (r: int)
      requires Shaped() && 0 <= i < |first|
      ensures x <= r && (r == x <==> !Blocks(i, x))
    {
      var y := if x == offsets[i] then x + hop else x;
      if first[i] <= y <= last[i] then last[i] + step else y
    }

    /** The same on account of the first `n` partitions, one after the other. */
    function Pass(x: int, n: nat): (r: int)
      requires Shaped() && n <= |first|
      ensures x <= r && (r == x <==> forall j :: 0 <= j < n ==> !Blocks(j, x))
    {
      if n == 0 then x else Past(n - 1, Pass(x, n - 1))
    }

    /** Where passes over all partitions lead: to a sector that nothing blocks, or beyond the limit. */
    function Rest(x: int): (r: int)
      requires Shaped()
      ensures x <= r && (r <= limit ==> Unblocked(r))
      decreases limit - x
    {
      var y := Pass(x, |first|);
      if y == x || limit < y then y else Rest(y)
    }

    /** The answer `a` names a sector, or a cylinder with a sector, from `x` to `y`. */
    predicate Names(a: u32, x: int, y: int) {
      if unit then 1 <= a && x <= CylinderEnd(a) && FirstSector(a, factor) <= y else x <= a <= y
    }

    /** The first question, asked at sector `from`, takes the answer `a`. */
    predicate InBounds(a: u32, from: int) {
      Names(a, from + extra, limit)
    }

    /** The question is put again after the answer `a`: it is out of bounds, or stands for a sector that is in use. */
    predicate Refused(a: u32, from: int)
      requires Shaped()
    {
      InBounds(a, from) ==> Meant(a, from) < Pass(Meant(a, from), |first|) <= limit
    }

    /** How many answers are refused before one settles the start, if any does. */
    function Refusals(from: int, answers: seq<u32>): (n: nat)
      requires Shaped()
      ensures n <= |answers| && (n < |answers| ==> !Refused(answers[n], from))
      ensures forall k :: 0 <= k < n ==> Refused(answers[k], from)
    {
      if answers == [] || !Refused(answers[0], from) then 0 else 1 + Refusals(from, answers[1..])
    }

    /** What the first loop comes to. */
    function StartFor(answers: seq<u32>): (r: Gap)
      requires Shaped()
      ensures r.Found? ==> r.start == r.stop <= limit
    {
      var from := Rest(lowest);
      var n := Refusals(from, answers);
      if limit < from then NoSpace
      else if n == |answers| then Aborted
      else
        MeantBounds(answers[n], from);
        var m := Meant(answers[n], from);
        if limit < Pass(m, |first|) then NoSpace else Found(m, m)
    }

    lemma MeantBounds(a: u32, from: int)
      requires Shaped() && InBounds(a, from) && from <= limit && 0 <= from
      ensures from + extra <= Meant(a, from) && (Meant(a, from) <= limit || Meant(a, from) == from + extra)
    {
    }

    /** None of the first `n` partitions begins in the sectors after `x` up to `y`. */
    predicate Clear(x: int, y: int, n: nat)
      requires Shaped() && n <= |first|
    {
      forall j :: 0 <= j < n ==> !Begins(j, x, y)
    }

    lemma ClearLess(x: int, y: int, z: int, n: nat)
      requires Shaped() && n <= |first| && Clear(x, y, n) && z <= y
      ensures Clear(x, z, n)
    {
      forall j | 0 <= j < n ensures !Begins(j, x, z) {
        assert !Begins(j, x, y);
      }
    }

    /** The limit for a partition that starts at sector `x`, brought down on account of the first `n` partitions. */
    function Least(x: int, n: nat): (r: int)
      requires Shaped() && n <= |first| && x <= limit
      ensures x <= r <= limit && Clear(x, r, n) && (r == limit || !Clear(x, r + 1, n))
    {
      if n == 0 then limit
      else
        var r := Least(x, n - 1);
        var s := if x < offsets[n - 1] <= r then offsets[n - 1] - 1 else r;
        var l := if x < first[n - 1] <= s then first[n - 1] - 1 else s;
        ClearLess(x, r, l, n - 1);
        assert l < r ==> Begins(n - 1, x, l + 1);
        assert r < limit ==> !Clear(x, r + 1, n) by {
          if Clear(x, r + 1, n) {
            assert Clear(x, r + 1, n - 1);
          }
        }
        l
    }

    /** How many answers are passed over before one names a sector from `x` to `y`, if any does. */
    function Passed(answers: seq<u32>, x: int, y: int): (n: nat)
      ensures n <= |answers| && (n < |answers| ==> Names(answers[n], x, y))
      ensures forall k :: 0 <= k < n ==> !Names(answers[k], x, y)
    {
      if answers == [] || Names(answers[0], x, y) then 0 else 1 + Passed(answers[1..], x, y)
    }

    /** What the last question comes to, for the sectors from `x` up to `y`. */
    function StopFor(x: u32, y: u32, answers: seq<u32>): (r: Gap)
      requires Shaped() && x <= y <= limit
      ensures r.Found? ==> r.start == x <= r.stop <= y
    {
      var n := Passed(answers, x, y);
      if Cround(x) == Cround(y) then Found(x, x)
      else if n == |answers| then Aborted
      else Found(x, if !unit then answers[n] else if y < CylinderEnd(answers[n]) then y else CylinderEnd(answers[n]))
    }

    /** What add_partition finds, given these answers. */
    function Given(answers: seq<u32>): (r: Gap)
      requires Shaped()
    {
      var g := StartFor(answers);
      if !g.Found? then g
      else StopFor(g.start, Least(g.start, |first|), answers[Refusals(Rest(lowest), answers) + 1..])
    }

    /** The first question, asked at sector `from`, surely takes the answer `a`. */
    predicate Accepts(a: u32, from: int) {
      if unit then 1 <= a && from + extra <= CylinderEnd(a) <= limit else from + extra <= a <= limit
    }

    /** The sector that the answer stands for. */
    function Meant(a: u32, from: int): int {
      if !unit then a else if FirstSector(a, factor) < from + extra then from + extra else FirstSector(a, factor)
    }

    /**
     Where a partition ends that is asked to take cylinders `c` to `d`: with the last of
     them; but if it is one cylinder and nothing is free behind it, with its first sector.
     */
    function CylinderStop(c: u32, d: u32): int
      requires |first| == |last| == |offsets|
    {
      if c < d || Beyond(CylinderStart(c), CylinderEnd(d) + 1) then CylinderEnd(d) else CylinderStart(c)
    }

    /** The macro `cround`. */
    function Cround(n: u32): (r: u32)
      requires 1 <= factor && n + factor < U32
      ensures if unit then 1 <= r && FirstSector(r, factor) <= n < FirstSector(r, factor) + factor else r == n
    {
      if unit then CroundBound(n, factor); Chs.Div(n + factor, factor) else n
    }
  }

  /** The first sector of the cylinder that is displayed as `c`. */
  function FirstSector(c: int, factor: nat): int {
    (c - 1) * factor
  }

  lemma FirstSectorMonotone(c: int, d: int, factor: nat)
    requires c <= d
    ensures FirstSector(c, factor) <= FirstSector(d, factor)
    ensures FirstSector(1, factor) == 0
  {
    Chs.Monotone(factor, c - 1, d - 1);
  }

  lemma CroundBound(n: nat, factor: nat)
    requires 1 <= factor
    ensures 1 <= Chs.Div(n + factor, factor) <= n + 1
    ensures var c := Chs.Div(n + factor, factor);
      0 <= FirstSector(c, factor) <= n < FirstSector(c, factor) + factor
  {
    hide Chs.Div, Chs.Mod;
    Chs.DivMod(n, factor);
    var q := Chs.Div(n, factor);
    assert factor * (q + 1) == factor * q + factor;
    Chs.Quotient(n + factor, factor, q + 1, Chs.Mod(n, factor));
    Chs.Monotone(q, 1, factor);
  }

  /** Which cylinder a sector belongs to. */
  lemma CroundAround(q: Search, x: u32, c: u32)
    requires q.unit && 1 <= q.factor && x + q.factor < U32 && 1 <= c
    ensures x <= q.CylinderEnd(c) ==> q.Cround(x) <= c
    ensures FirstSector(c, q.factor) <= x ==> c <= q.Cround(x)
  {
    hide FirstSector, Chs.Div, Chs.Mod;
    var r := q.Cround(x);
    if c < r {
      FirstSectorMonotone(c + 1, r, q.factor);
      FirstSectorNext(c, q.factor);
    }
    if r < c {
      FirstSectorMonotone(r + 1, c, q.factor);
      FirstSectorNext(r, q.factor);
    }
  }

  lemma FirstSectorNext(c: int, factor: nat)
    ensures FirstSector(c + 1, factor) == FirstSector(c, factor) + factor
  {
  }

  lemma SoundShaped(q: Search, top: nat)
    requires q.Sound(top)
    ensures q.Shaped()
  {
  }

  /** The bounds of a question are the cylinders of the sectors. */
  lemma NamesRounded(q: Search, a: u32, x: u32, y: u32)
    requires 1 <= q.factor && x + q.factor < U32 && y + q.factor < U32
    ensures q.Names(a, x, y) <==> q.Cround(x) <= a <= q.Cround(y)
  {
    hide FirstSector, Search.Cround;
    if q.unit && 1 <= a {
      CroundAround(q, x, a);
      CroundAround(q, y, a);
      var r, s := q.Cround(x), q.Cround(y);
      if r <= a {
        FirstSectorMonotone(r, a, q.factor);
      }
      if a <= s {
        FirstSectorMonotone(a, s, q.factor);
      }
    }
  }

  /** The first `n` answers to the question at `from` are refused and the one behind them, if any, is not. */
  lemma {:induction false} RefusalsAre(q: Search, from: int, answers: seq<u32>, n: nat)
    requires q.Shaped() && n <= |answers| && forall k :: 0 <= k < n ==> q.Refused(answers[k], from)
    requires n < |answers| ==> !q.Refused(answers[n], from)
    ensures q.Refusals(from, answers) == n
  {
    hide Search.Refused;
  }

  lemma RestStays(q: Search, x: int)
    requires q.Shaped()
    ensures q.Rest(x) <= q.limit ==> q.Pass(q.Rest(x), |q.first|) == q.Rest(x)
  {
  }

  /** The first `n` answers name no sector from `x` to `y` and the one behind them, if any, does. */
  lemma {:induction false} PassedAre(q: Search, answers: seq<u32>, x: int, y: int, n: nat)
    requires n <= |answers| && forall k :: 0 <= k < n ==> !q.Names(answers[k], x, y)
    requires n < |answers| ==> q.Names(answers[n], x, y)
    ensures q.Passed(answers, x, y) == n
  {
    hide Search.Names;
  }

  // ----- what is found is free

  /** The sectors start..stop lie within bounds and meet no partition and no link sector. */
  predicate Granted(q: Search, start: int, stop: int)
    requires |q.first| == |q.last| == |q.offsets|
  {
    && q.lowest + q.extra <= start <= stop <= q.limit
    && forall i :: 0 <= i < |q.first| ==>
      && !(start <= q.offsets[i] <= stop)
      && (q.last[i] < start || stop < q.first[i])
  }

  lemma FreeGranted(q: Search, s: int, e: int)
    requires |q.first| == |q.last| == |q.offsets| && q.Free(s, e)
    ensures Granted(q, s, e)
  {
    forall i | 0 <= i < |q.first|
      ensures !(s <= q.offsets[i] <= e) && (q.last[i] < s || e < q.first[i])
    {
      assert !q.Blocks(i, s) && !q.Begins(i, s, e);
    }
  }

  /** What is found meets nothing. */
  lemma GivenGranted(q: Search, answers: seq<u32>)
    requires q.Shaped() && q.Given(answers).Found?
    ensures Granted(q, q.Given(answers).start, q.Given(answers).stop)
  {
    hide Search.Rest, Search.Meant, Search.InBounds, Search.Cround, Search.Names, Search.Least, Search.Refusals;
    var from := q.Rest(q.lowest);
    var a := answers[q.Refusals(from, answers)];
    q.MeantBounds(a, from);
    var s := q.Meant(a, from);
    assert q.StartFor(answers) == Found(s, s);
    var y := q.Least(s, |q.first|);
    assert q.Pass(s, |q.first|) == s;
    FoundApart(q, s, y, q.Given(answers).stop);
  }

  lemma FoundApart(q: Search, s: int, y: int, stop: int)
    requires q.Shaped() && q.lowest + q.extra <= s <= stop <= y <= q.limit && q.Unblocked(s)
    requires q.Clear(s, y, |q.first|)
    ensures Granted(q, s, stop)
  {
    forall i | 0 <= i < |q.first|
      ensures !(s <= q.offsets[i] <= stop) && (q.last[i] < s || stop < q.first[i])
    {
      assert !q.Blocks(i, s) && !q.Begins(i, s, y);
    }
  }

  // ----- where the questions are asked

  lemma {:induction false} PassGoal(q: Search, x: int, n: nat, goal: int)
    requires q.Shaped() && n <= |q.first| && x <= goal && q.Reachable(goal)
    ensures q.Pass(x, n) <= goal
  {
    if n != 0 {
      PassGoal(q, x, n - 1, goal);
    }
  }

  /** Passes never lead beyond a sector that cannot be jumped over. */
  lemma {:induction false} RestGoal(q: Search, x: int, goal: int)
    requires q.Shaped() && x <= goal && q.Reachable(goal)
    ensures q.Rest(x) <= goal
    decreases q.limit - x
  {
    hide Search.Reachable, Search.Pass;
    var y := q.Pass(x, |q.first|);
    PassGoal(q, x, |q.first|, goal);
    if x < y <= q.limit {
      RestGoal(q, y, goal);
    }
  }

  lemma {:induction false} PassCovered(q: Search, x: int, n: nat, y: int)
    requires q.Shaped() && q.hop == q.step == 1 && n <= |q.first| && x <= y < q.Pass(x, n)
    ensures !q.Unblocked(y)
  {
    var z := q.Pass(x, n - 1);
    if y < z {
      PassCovered(q, x, n - 1, y);
    } else {
      assert q.Blocks(n - 1, y);
    }
  }

  /** Without DOS compatibility the first question is asked at the lowest sector that nothing blocks. */
  lemma {:induction false} RestLowest(q: Search, x: int, y: int)
    requires q.Shaped() && q.hop == q.step == 1 && x <= y < q.Rest(x)
    ensures !q.Unblocked(y)
    decreases q.limit - x
  {
    hide Search.Unblocked, Search.Pass;
    var z := q.Pass(x, |q.first|);
    if y < z {
      PassCovered(q, x, |q.first|, y);
    } else {
      RestLowest(q, z, y);
    }
  }

  // ----- what is free and asked for is found

  lemma CylindersInUnits(q: Search, answers: seq<u32>)
    requires |q.first| == |q.last| == |q.offsets|
    ensures 2 <= |answers| && q.FreeCylinders(answers[0], answers[1]) ==> q.unit
    ensures 2 <= |answers| && q.Free(answers[0], answers[1]) ==> !q.unit
  {
  }

  lemma CylindersAscend(q: Search, c: u32, d: u32)
    requires 1 <= c <= d
    ensures 0 <= FirstSector(c, q.factor) && q.CylinderEnd(c) <= q.CylinderEnd(d)
  {
    FirstSectorMonotone(1, c, q.factor);
    FirstSectorMonotone(c, d, q.factor);
  }

  /** The gap is what asking for cylinders `c` to `d` should give. */
  predicate AsCylinders(q: Search, c: u32, d: u32, gap: Gap)
    requires |q.first| == |q.last| == |q.offsets|
  {
    gap.Found? && gap.start == q.CylinderStart(c) && gap.stop == q.CylinderStop(c, d)
  }

  /** What is free and asked for is what the search gives, in either unit. */
  ghost predicate Obeys(q: Search, answers: seq<u32>, gap: Gap)
    requires |q.first| == |q.last| == |q.offsets|
  {
    2 <= |answers| ==>
      && (q.Free(answers[0], answers[1]) ==> gap == Found(answers[0], answers[1]))
      && (q.FreeCylinders(answers[0], answers[1]) ==> AsCylinders(q, answers[0], answers[1], gap))
  }

  /** How the last question ends for cylinders `c` to `d`, given the limit that Trim found. */
  lemma StopOfCylinders(q: Search, c: u32, d: u32, limit: u32)
    requires q.Shaped() && q.FreeCylinders(c, d)
    requires var s, e := q.CylinderStart(c), q.CylinderEnd(d);
      && s <= limit <= q.limit && (forall i :: 0 <= i < |q.first| ==> !q.Begins(i, s, limit))
      && (if q.Beyond(s, e + 1) then e + 1 <= limit else e <= limit)
    ensures var s, e := q.CylinderStart(c), q.CylinderEnd(d);
      && q.unit && 1 <= d && 0 <= s <= e <= limit
      && (if q.Cround(s) == q.Cround(limit) then s else e) == q.CylinderStop(c, d)
  {
    hide FirstSector, Search.Begins, Search.Unblocked, Search.Reachable, Search.Cround;
    var s, e := q.CylinderStart(c), q.CylinderEnd(d);
    CylindersAscend(q, c, d);
    CroundAround(q, s, c);
    CroundAround(q, limit, d);
    FirstSectorMonotone(c, d, q.factor);
    if q.Beyond(s, e + 1) {
      FirstSectorNext(d, q.factor);
      CroundAround(q, limit, d + 1);
    } else {
      assert limit <= e by {
        if e < limit {
          BeyondLess(q, s, e + 1, limit);
        }
      }
      CroundMonotone(q, s, limit);
    }
  }

  /** Nothing begins up to the last sector that was asked for, nor up to the next if that is free too. */
  lemma CylindersGoal(q: Search, c: u32, d: u32, goal: int)
    requires |q.first| == |q.last| == |q.offsets| && q.FreeCylinders(c, d)
    requires goal == q.CylinderEnd(d) || (goal == q.CylinderEnd(d) + 1 && q.Beyond(q.CylinderStart(c), goal))
    ensures q.CylinderStart(c) <= goal <= q.limit
    ensures forall i :: 0 <= i < |q.first| ==> !q.Begins(i, q.CylinderStart(c), goal)
  {
    CylindersAscend(q, c, d);
  }

  lemma BeyondLess(q: Search, x: int, y: int, z: int)
    requires |q.first| == |q.last| == |q.offsets| && q.Beyond(x, z) && y <= z
    ensures q.Beyond(x, y)
  {
    forall i | 0 <= i < |q.first| ensures !q.Begins(i, x, y) {
      assert !q.Begins(i, x, z);
    }
  }

  lemma CroundMonotone(q: Search, x: u32, y: u32)
    requires q.unit && 1 <= q.factor && x <= y && y + q.factor < U32
    ensures q.Cround(x) <= q.Cround(y)
  {
    hide FirstSector, Chs.Div, Chs.Mod;
    CroundAround(q, y, q.Cround(x));
  }

  /** The first answer that is in bounds and stands for a sector that nothing blocks settles the start. */
  lemma Settles(q: Search, answers: seq<u32>, n: nat)
    requires q.Shaped() && n < |answers| && 0 <= q.Rest(q.lowest) <= q.limit
    requires forall k :: 0 <= k < n ==> q.Refused(answers[k], q.Rest(q.lowest))
    requires q.InBounds(answers[n], q.Rest(q.lowest))
    requires var s := q.Meant(answers[n], q.Rest(q.lowest)); s <= q.limit && q.Unblocked(s)
    ensures var s := q.Meant(answers[n], q.Rest(q.lowest));
      && q.Refusals(q.Rest(q.lowest), answers) == n && 0 <= s && q.StartFor(answers) == Found(s, s)
      && q.Given(answers) == q.StopFor(s, q.Least(s, |q.first|), answers[n + 1..])
  {
    hide Search.Rest, Search.InBounds, Search.Meant, Search.Least, Search.Refusals, Search.StopFor;
    var from := q.Rest(q.lowest);
    var s := q.Meant(answers[n], from);
    assert q.Pass(s, |q.first|) == s;
    hide Search.Pass;
    RefusalsAre(q, from, answers, n);
    q.MeantBounds(answers[n], from);
  }

  /** The last question takes the first answer that names a sector from `x` to `y`, if there is anything to ask. */
  lemma Stops(q: Search, x: u32, y: u32, answers: seq<u32>, n: nat)
    requires q.Shaped() && x <= y <= q.limit && n < |answers| && q.Names(answers[n], x, y)
    requires forall k :: 0 <= k < n ==> !q.Names(answers[k], x, y)
    ensures q.StopFor(x, y, answers) ==
      if q.Cround(x) == q.Cround(y) then Found(x, x)
      else
        Found(x, if !q.unit then answers[n] else if y < q.CylinderEnd(answers[n]) then y else q.CylinderEnd(answers[n]))
  {
    hide Search.Names, Search.Cround, Search.CylinderEnd;
    PassedAre(q, answers, x, y, n);
  }

  /** The limit is the last sector up to which nothing begins. */
  lemma LeastBelow(q: Search, x: int, y: int)
    requires q.Shaped() && x <= y <= q.limit && q.Clear(x, y, |q.first|)
    ensures y <= q.Least(x, |q.first|)
  {
    hide Search.Clear;
    var r := q.Least(x, |q.first|);
    if r < y {
      q.ClearLess(x, y, r + 1, |q.first|);
    }
  }

  lemma FreeObeyed(q: Search, answers: seq<u32>)
    requires q.Shaped() && 2 <= |answers| && q.Free(answers[0], answers[1])
    ensures q.Given(answers) == Found(answers[0], answers[1])
  {
    var s, e := answers[0], answers[1];
    var goal :| q.lowest <= goal <= s - q.extra && q.Reachable(goal);
    RestGoal(q, q.lowest, goal);
    Settles(q, answers, 0);
    LeastBelow(q, s, e);
    var y := q.Least(s, |q.first|);
    hide Search.Least, Search.Clear, Search.StopFor, Search.Given, Search.Reachable, Search.Unblocked, Search.Rest;
    assert answers[1..][0] == e;
    Stops(q, s, y, answers[1..], 0);
  }

  lemma CylindersMeant(q: Search, c: u32, d: u32)
    requires q.Shaped() && q.FreeCylinders(c, d)
    ensures 0 <= q.Rest(q.lowest) <= q.limit && q.InBounds(c, q.Rest(q.lowest))
    ensures q.Meant(c, q.Rest(q.lowest)) == q.CylinderStart(c) <= q.limit && q.Unblocked(q.CylinderStart(c))
  {
    hide FirstSector, Search.Begins, Search.Blocks;
    CylindersAscend(q, c, d);
    if q.lowest + q.extra <= FirstSector(c, q.factor) {
      var goal :| q.lowest <= goal <= q.CylinderStart(c) - q.extra && q.Reachable(goal);
      RestGoal(q, q.lowest, goal);
    } else {
      assert q.Pass(q.lowest, |q.first|) == q.lowest;
    }
  }

  lemma CylinderNamed(q: Search, d: u32, s: int, e: int, y: int)
    requires q.Shaped() && q.unit && 1 <= d && 0 <= s <= e == q.CylinderEnd(d) <= y
    ensures q.Names(d, s, y)
  {
    hide FirstSector;
  }

  lemma CylindersLeast(q: Search, c: u32, d: u32)
    requires q.Shaped() && q.FreeCylinders(c, d)
    ensures q.unit && 0 <= q.CylinderStart(c) <= q.CylinderEnd(d) <= q.Least(q.CylinderStart(c), |q.first|)
    ensures var s, y := q.CylinderStart(c), q.Least(q.CylinderStart(c), |q.first|);
      q.Names(d, s, y) && q.CylinderStop(c, d) == if q.Cround(s) == q.Cround(y) then s else q.CylinderEnd(d)
  {
    var s, e := q.CylinderStart(c), q.CylinderEnd(d);
    CylindersMeant(q, c, d);
    CylindersGoal(q, c, d, e);
    LeastBelow(q, s, e);
    if q.Beyond(s, e + 1) {
      CylindersGoal(q, c, d, e + 1);
      LeastBelow(q, s, e + 1);
    }
    hide Search.Beyond, Search.Begins, Search.Unblocked, Search.Rest, Search.Least, FirstSector, Search.Cround,
        Search.CylinderStart, Search.CylinderEnd, Search.Blocks, Search.Reachable;
    var y := q.Least(s, |q.first|);
    StopOfCylinders(q, c, d, y);
    CylinderNamed(q, d, s, e, y);
  }

  lemma CylindersObeyed(q: Search, answers: seq<u32>)
    requires q.Shaped() && 2 <= |answers| && q.FreeCylinders(answers[0], answers[1])
    ensures AsCylinders(q, answers[0], answers[1], q.Given(answers))
  {
    hide *;
    var c, d := answers[0], answers[1];
    CylindersMeant(q, c, d);
    CylindersLeast(q, c, d);
    SettlesAtOnce(q, answers);
    var s := q.CylinderStart(c);
    var y := q.Least(s, |q.first|);
    Stops(q, s, y, answers[1..], 0);
    GivenAsCylinders(q, c, d, q.Given(answers));
  }

  lemma GivenAsCylinders(q: Search, c: u32, d: u32, gap: Gap)
    requires q.Shaped() && gap.Found? && gap.start == q.CylinderStart(c) && gap.stop == q.CylinderStop(c, d)
    ensures AsCylinders(q, c, d, gap)
  {
  }

  lemma SettlesAtOnce(q: Search, answers: seq<u32>)
    requires q.Shaped() && answers != [] && 0 <= q.Rest(q.lowest) <= q.limit
    requires q.InBounds(answers[0], q.Rest(q.lowest))
    requires var s := q.Meant(answers[0], q.Rest(q.lowest)); s <= q.limit && q.Unblocked(s)
    ensures var s := q.Meant(answers[0], q.Rest(q.lowest));
      0 <= s && q.Given(answers) == q.StopFor(s, q.Least(s, |q.first|), answers[1..])
  {
    hide *;
    Settles(q, answers, 0);
  }

  /** The gap is what the search finds, and what it should find. */
  ghost predicate Answers(q: Search, answers: seq<u32>, gap: Gap) {
    q.Shaped() && gap == q.Given(answers) && Obeys(q, answers, gap)
  }

  /** What is free and asked for at once is found, in either unit. */
  lemma GivenObeys(q: Search, answers: seq<u32>)
    requires q.Shaped()
    ensures Obeys(q, answers, q.Given(answers))
  {
    hide Search.Given, Search.Free, Search.FreeCylinders, AsCylinders;
    if 2 <= |answers| && q.Free(answers[0], answers[1]) {
      FreeObeyed(q, answers);
    }
    if 2 <= |answers| && q.FreeCylinders(answers[0], answers[1]) {
      CylindersObeyed(q, answers);
    }
  }
}
