/**
 Which answers the search of add_partition takes (fdisk.c), in terms of the sectors that
 partitions and links keep.
 */
module GapAnswers {
  import opened Words
  import opened GapModel
  import opened MbrModel

  // ----- where the first question is asked

  /** No sector from the lowest on is kept by two partitions. */
  ghost predicate Disjoint(q: Search)
    requires q.Shaped()
  {
    forall i, j, y :: 0 <= i < |q.first| && 0 <= j < |q.first| && i != j && q.lowest <= y && q.Blocks(i, y) ==>
      !q.Blocks(j, y)
  }

  /** Behind the link sector, or behind the last sector of the data. */
  function Behind(q: Search, i: int, x: int): int
    requires q.Shaped() && 0 <= i < |q.first|
  {
    if x == q.offsets[i] then x + q.hop else q.last[i] + q.step
  }

  /** The sector that is reached by going behind one partition after the other, or the first one beyond the limit. */
  ghost function Chased(q: Search, x: int): (r: int)
    requires q.Shaped()
    decreases q.limit - x
  {
    if q.limit < x then q.limit + 1
    else if q.Unblocked(x) then x
    else
      var i :| 0 <= i < |q.first| && q.Blocks(i, x);
      Chased(q, Behind(q, i, x))
  }

  lemma ChasedStep(q: Search, x: int, i: int)
    requires q.Shaped() && Disjoint(q) && q.lowest <= x && 0 <= i < |q.first| && q.Blocks(i, x)
    ensures Chased(q, x) == Chased(q, Behind(q, i, x))
  {
  }

  lemma ChasedPast(q: Search, x: int, i: int)
    requires q.Shaped() && Disjoint(q) && q.lowest <= x && 0 <= i < |q.first|
    ensures Chased(q, q.Past(i, x)) == Chased(q, x)
  {
    hide Chased, Disjoint;
    if q.Blocks(i, x) {
      ChasedStep(q, x, i);
      var y := Behind(q, i, x);
      if x == q.offsets[i] && q.Blocks(i, y) {
        ChasedStep(q, y, i);
      }
    }
  }

  lemma {:induction false} ChasedPass(q: Search, x: int, n: nat)
    requires q.Shaped() && Disjoint(q) && q.lowest <= x && n <= |q.first|
    ensures Chased(q, q.Pass(x, n)) == Chased(q, x)
  {
    hide Chased, Disjoint;
    if n != 0 {
      ChasedPass(q, x, n - 1);
      ChasedPast(q, q.Pass(x, n - 1), n - 1);
    }
  }

  lemma {:induction false} ChasedRest(q: Search, x: int)
    requires q.Shaped() && Disjoint(q) && q.lowest <= x
    ensures Chased(q, x) == if q.limit < q.Rest(x) then q.limit + 1 else q.Rest(x)
    decreases q.limit - x
  {
    hide Disjoint;
    var y := q.Pass(x, |q.first|);
    ChasedPass(q, x, |q.first|);
    if x < y <= q.limit {
      ChasedRest(q, y);
    }
  }

  /** Both are the same sector, or none of them may be used. */
  predicate SameRest(q: Search, x: int, y: int) {
    x == y || (q.limit < x && q.limit < y)
  }

  lemma RestBehind(q: Search, x: int, i: int)
    requires q.Shaped() && Disjoint(q) && q.lowest <= x && 0 <= i < |q.first| && q.Blocks(i, x)
    ensures SameRest(q, q.Rest(x), q.Rest(Behind(q, i, x)))
  {
    hide Disjoint, Chased, Search.Rest;
    ChasedStep(q, x, i);
    ChasedRest(q, x);
    ChasedRest(q, Behind(q, i, x));
  }

  /**
   As long as no sector is kept twice, the order of the table does not matter: a sector that is free is
   where the question is asked, and from one that is kept the search goes on behind its keeper.
   */
  lemma RestLaws(q: Search, x: int)
    requires q.Shaped() && Disjoint(q) && q.lowest <= x <= q.limit
    ensures q.Unblocked(x) ==> q.Rest(x) == x
    ensures forall i :: 0 <= i < |q.first| && x == q.offsets[i] ==> SameRest(q, q.Rest(x), q.Rest(x + q.hop))
    ensures forall i :: 0 <= i < |q.first| && x != q.offsets[i] && q.first[i] <= x <= q.last[i] ==>
      SameRest(q, q.Rest(x), q.Rest(q.last[i] + q.step))
  {
    hide Disjoint, Search.Pass, SameRest;
    forall i | 0 <= i < |q.first| && x == q.offsets[i] ensures SameRest(q, q.Rest(x), q.Rest(x + q.hop)) {
      RestBehind(q, x, i);
    }
    forall i | 0 <= i < |q.first| && x != q.offsets[i] && q.first[i] <= x <= q.last[i]
      ensures SameRest(q, q.Rest(x), q.Rest(q.last[i] + q.step))
    {
      RestBehind(q, x, i);
    }
  }

  /** Without DOS compatibility nothing is ever jumped over: the search finds the next free sector, if there is one. */
  lemma RestNext(q: Search, x: int)
    requires q.Shaped() && q.hop == q.step == 1
    ensures forall y :: x <= y < q.Rest(x) ==> !q.Unblocked(y)
    ensures q.limit < q.Rest(x) <==> forall y :: x <= y <= q.limit ==> !q.Unblocked(y)
  {
    hide Search.Unblocked, Search.Pass;
    forall y | x <= y < q.Rest(x) ensures !q.Unblocked(y) {
      RestLowest(q, x, y);
    }
    assert x <= q.Rest(x);
  }

  /**
   An answer that is kept by a partition, the first in the order of the table: it is moved behind it, and
   stays there unless a later partition keeps that sector as well.
   */
  lemma PassFirst(q: Search, x: int, i: nat)
    requires q.Shaped() && i < |q.first| && q.Blocks(i, x) && forall j :: 0 <= j < i ==> !q.Blocks(j, x)
    ensures var z := if x == q.offsets[i] then x + q.hop else x;
      var y := if q.first[i] <= z <= q.last[i] then q.last[i] + q.step else z;
      && y <= q.Pass(x, |q.first|)
      && ((forall j :: i < j < |q.first| ==> !q.Blocks(j, y)) ==> q.Pass(x, |q.first|) == y)
  {
    assert q.Pass(x, i) == x;
    PassRest(q, x, i + 1, |q.first|);
  }

  lemma {:induction false} PassRest(q: Search, x: int, n: nat, m: nat)
    requires q.Shaped() && n <= m <= |q.first|
    ensures q.Pass(x, n) <= q.Pass(x, m)
    ensures (forall j :: n <= j < m ==> !q.Blocks(j, q.Pass(x, n))) ==> q.Pass(x, m) == q.Pass(x, n)
  {
    if n < m {
      PassRest(q, x, n, m - 1);
    }
  }

  /** In sector units a safe table without logical partitions, with exact addresses, keeps no sector twice. */
  lemma PrimariesDisjoint(s: Settings, t: Table, n: nat)
    requires Safe(s, t) && s.Sane() && !s.unit && t.base == 0 && n < 4
    requires forall i :: 0 <= i < t.Size() ==> Exact(s, t, i)
    ensures var q := SearchOf(s, t, n); q.Shaped() && Disjoint(q)
  {
    SafeSearchable(s, t);
    SearchSound(s, t, n);
    SearchShape(s, t, n);
    var q := SearchOf(s, t, n);
    SoundShaped(q, s.Total() - 1);
    hide Safe, SearchOf, Search.Blocks, Search.Shaped, Searchable, Search.Sound, Exact;
    forall i, j, y | 0 <= i < |q.first| && 0 <= j < |q.first| && i != j && q.lowest <= y && q.Blocks(i, y)
      ensures !q.Blocks(j, y)
    {
      if q.Blocks(j, y) {
        KeptOnce(s, t, n, if i < j then i else j, if i < j then j else i, y);
      }
    }
  }

  lemma KeptOnce(s: Settings, t: Table, n: nat, i: nat, j: nat, y: int)
    requires Safe(s, t) && s.Sane() && !s.unit && t.base == 0 && n < 4 && i < j < t.Size()
    requires Exact(s, t, i) && Exact(s, t, j)
    requires var q := SearchOf(s, t, n);
      |q.first| == |q.last| == |q.offsets| == t.Size() && q.lowest <= y && q.Blocks(i, y)
    ensures !SearchOf(s, t, n).Blocks(j, y)
  {
    SafeSearchable(s, t);
    KeptWithin(s, t, n, i, y);
    if SearchOf(s, t, n).Blocks(j, y) {
      KeptWithin(s, t, n, j, y);
      hide SearchOf, Exact, Searchable;
      SafeDisjoint(s, t, i, j);
      assert false;
    }
  }

  lemma KeptWithin(s: Settings, t: Table, n: nat, i: nat, y: int)
    requires Searchable(s, t) && s.Sane() && !s.unit && t.base == 0 && n < 4 && i < t.Size() && Exact(s, t, i)
    requires var q := SearchOf(s, t, n);
      |q.first| == |q.last| == |q.offsets| == t.Size() && q.lowest <= y && q.Blocks(i, y)
    requires t.links == []
    ensures t.HoldsData(i) && t.At(i).start <= y < t.At(i).start + t.At(i).count
  {
    LastBelow(s, t, n, i);
    hide Searchable;
  }

  // ----- what the answers come to

  /** The answers before number `n` are refused, and number `n` leads past the limit. */
  ghost predicate GivesUp(q: Search, answers: seq<u32>, n: nat)
    requires q.Shaped() && n < |answers|
  {
    var from := q.Rest(q.lowest);
    && (forall k :: 0 <= k < n ==> q.Refused(answers[k], from))
    && q.InBounds(answers[n], from) && q.limit < q.Pass(q.Meant(answers[n], from), |q.first|)
  }

  /**
   No space is found exactly if there is no place for the first question, or the first answer that settles
   it stands for a sector in use behind which the limit is passed.
   */
  lemma NoSpaceIff(q: Search, answers: seq<u32>)
    requires q.Shaped()
    ensures q.Given(answers) == NoSpace <==>
      q.Rest(q.lowest) <= q.limit ==> exists n :: 0 <= n < |answers| && GivesUp(q, answers, n)
  {
    hide Search.Rest, Search.InBounds, Search.Meant, Search.Pass, Search.Least, Search.Refusals;
    var from := q.Rest(q.lowest);
    if from <= q.limit {
      forall n | 0 <= n < |answers| && GivesUp(q, answers, n)
        ensures q.Refusals(from, answers) == n
      {
        RefusalsAre(q, from, answers, n);
      }
      var n := q.Refusals(from, answers);
      if n < |answers| && q.limit < q.Pass(q.Meant(answers[n], from), |q.first|) {
        assert GivesUp(q, answers, n);
      }
    }
  }

  /** A sector from `x` up to the limit that the search comes to rest at or before. */
  ghost predicate Resting(q: Search, x: int)
    requires q.Shaped()
  {
    exists g :: x <= g <= q.limit && q.Reachable(g)
  }

  /** The answers before number `n` are out of bounds, or stand for sectors in use with a resting place behind them. */
  ghost predicate Again(q: Search, answers: seq<u32>, n: nat)
    requires q.Shaped() && n <= |answers|
  {
    var from := q.Rest(q.lowest);
    forall k :: 0 <= k < n && q.InBounds(answers[k], from) ==>
      !q.Unblocked(q.Meant(answers[k], from)) && Resting(q, q.Meant(answers[k], from))
  }

  lemma RefusedAgain(q: Search, a: u32, from: int)
    requires q.Shaped() && !q.Unblocked(q.Meant(a, from)) && Resting(q, q.Meant(a, from))
    ensures q.Refused(a, from)
  {
    var m := q.Meant(a, from);
    var g :| m <= g <= q.limit && q.Reachable(g);
    PassGoal(q, m, |q.first|, g);
    hide Search.Meant, Search.InBounds, Search.Reachable;
  }

  /** Then the first answer for a free sector settles the start. */
  lemma FirstFree(q: Search, answers: seq<u32>, n: nat)
    requires q.Shaped() && Resting(q, q.lowest) && n < |answers| && Again(q, answers, n)
    requires q.InBounds(answers[n], q.Rest(q.lowest))
    requires var s := q.Meant(answers[n], q.Rest(q.lowest)); s <= q.limit && q.Unblocked(s)
    ensures q.lowest <= q.Rest(q.lowest) <= q.limit
    ensures var s := q.Meant(answers[n], q.Rest(q.lowest));
      0 <= s && q.Given(answers) == q.StopFor(s, q.Least(s, |q.first|), answers[n + 1..])
  {
    var g :| q.lowest <= g <= q.limit && q.Reachable(g);
    RestGoal(q, q.lowest, g);
    hide Search.Rest, Search.InBounds, Search.Meant, Search.Least, Search.StopFor, Search.Given, Search.Unblocked,
        Search.Reachable, Resting;
    var from := q.Rest(q.lowest);
    forall k | 0 <= k < n ensures q.Refused(answers[k], from) {
      if q.InBounds(answers[k], from) {
        RefusedAgain(q, answers[k], from);
      }
    }
    Settles(q, answers, n);
  }

  /**
   In sector units: the first answer for a free sector is the start, and the first answer behind it up to
   which nothing begins is the last sector.
   */
  lemma GivenSectors(q: Search, answers: seq<u32>, n: nat, m: nat)
    requires q.Shaped() && !q.unit && Resting(q, q.lowest) && n < m < |answers| && Again(q, answers, n)
    requires q.Rest(q.lowest) + q.extra <= answers[n] <= q.limit && q.Unblocked(answers[n])
    requires answers[n] <= answers[m] <= q.limit && q.Clear(answers[n], answers[m], |q.first|)
    requires forall k :: n < k < m ==>
      answers[k] < answers[n] || q.limit < answers[k] || !q.Clear(answers[n], answers[k], |q.first|)
    ensures q.Given(answers) == Found(answers[n], answers[m])
  {
    hide Search.Rest, Search.Least, Search.StopFor, Search.Given, Search.Unblocked, Search.Clear, Resting, Again;
    FirstFree(q, answers, n);
    var s := answers[n];
    LeastBelow(q, s, answers[m]);
    var y, rest := q.Least(s, |q.first|), answers[n + 1..];
    forall k | 0 <= k < m - n - 1 ensures !q.Names(rest[k], s, y) {
      if s <= rest[k] <= y {
        q.ClearLess(s, y, rest[k], |q.first|);
      }
    }
    Stops(q, s, y, rest, m - n - 1);
  }

  /**
   In cylinder units, with `y` the last sector up to which nothing begins: if that lies in the cylinder of
   the start, only the first sector is given; else the first answer behind it with a cylinder from the
   start to `y` is the last cylinder.
   */
  lemma GivenCylinders(q: Search, answers: seq<u32>, n: nat, m: nat, c: u32, y: int)
    requires q.Shaped() && q.unit && Resting(q, q.lowest) && n < m < |answers| && Again(q, answers, n)
    requires q.InBounds(answers[n], q.Rest(q.lowest))
    requires var s := q.Meant(answers[n], q.Rest(q.lowest));
      && q.Unblocked(s) && s <= y <= q.limit && q.Clear(s, y, |q.first|)
      && (y == q.limit || !q.Clear(s, y + 1, |q.first|))
      && 1 <= c && FirstSector(c, q.factor) <= s <= q.CylinderEnd(c)
      && (forall k :: n < k < m ==>
            answers[k] == 0 || q.CylinderEnd(answers[k]) < s || y < FirstSector(answers[k], q.factor))
      && 1 <= answers[m] && s <= q.CylinderEnd(answers[m]) && FirstSector(answers[m], q.factor) <= y
    ensures var s, e := q.Meant(answers[n], q.Rest(q.lowest)), q.CylinderEnd(answers[m]);
      && 0 <= s && (y <= q.CylinderEnd(c) ==> q.Given(answers) == Found(s, s))
      && (q.CylinderEnd(c) < y ==> 0 <= e && q.Given(answers) == Found(s, if y < e then y else e))
  {
    hide Search.Rest, Search.InBounds, Search.Meant, Search.Least, Search.StopFor, Search.Given, Search.Unblocked,
        Search.Clear, Search.CylinderEnd, Search.Cround, FirstSector, Resting, Again;
    FirstFree(q, answers, n);
    var s := q.Meant(answers[n], q.Rest(q.lowest));
    LeastIs(q, s, y);
    var rest := answers[n + 1..];
    Stops(q, s, y, rest, m - n - 1);
    OneCylinder(q, c, s, y);
  }

  lemma LeastIs(q: Search, x: int, y: int)
    requires q.Shaped() && x <= y <= q.limit && q.Clear(x, y, |q.first|)
    requires y == q.limit || !q.Clear(x, y + 1, |q.first|)
    ensures q.Least(x, |q.first|) == y
  {
    LeastBelow(q, x, y);
    hide Search.Clear;
    if y < q.Least(x, |q.first|) {
      q.ClearLess(x, q.Least(x, |q.first|), y + 1, |q.first|);
    }
  }

  lemma OneCylinder(q: Search, c: u32, x: u32, y: u32)
    requires q.Shaped() && q.unit && x <= y <= q.limit && 1 <= c
    requires FirstSector(c, q.factor) <= x <= q.CylinderEnd(c)
    ensures q.Cround(x) == q.Cround(y) <==> y <= q.CylinderEnd(c)
  {
    hide Search.Cround, FirstSector;
    CroundAround(q, x, c);
    CroundAround(q, y, c);
    CroundMonotone(q, x, y);
  }

  /**
   On a disk of 100 cylinders with 16 heads and 63 sectors that holds one partition from 2000 to 3000, the
   answer 2500 is refused, and the sectors 100 to 500 that are asked for then are found.
   */
  lemma AskedInstead()
    ensures var q := Search([2000], [3000], [0], 63, 100799, 63, 1, 0, false, 1);
      q.Shaped() && q.Given([2500, 100, 500]) == Found(100, 500)
  {
    var q := Search([2000], [3000], [0], 63, 100799, 63, 1, 0, false, 1);
    var answers := [2500, 100, 500];
    assert q.Pass(63, 0) == 63 && q.Rest(63) == 63;
    hide Search.Rest, Search.Given, Search.Pass;
    assert q.Reachable(63) && q.Reachable(3001) && q.Blocks(0, 2500);
    assert Resting(q, 63) && Again(q, answers, 1);
    GivenSectors(q, answers, 1, 2);
  }

  // ----- the order of the table

  /** Two partitions in sectors 10..49 and 50..100, and free sectors in front of them. */
  function TwoPartitions(ascending: bool): Search {
    if ascending then Search([10, 50], [49, 100], [0, 0], 1, 100, 1, 1, 0, false, 1)
    else Search([50, 10], [100, 49], [0, 0], 1, 100, 1, 1, 0, false, 1)
  }

  lemma TwoPasses(x: int)
    ensures TwoPartitions(true).Shaped() && TwoPartitions(false).Shaped()
    ensures var q := TwoPartitions(true); q.Pass(x, 2) == q.Past(1, q.Past(0, x))
    ensures var q := TwoPartitions(false); q.Pass(x, 2) == q.Past(1, q.Past(0, x))
  {
    var q, z := TwoPartitions(true), TwoPartitions(false);
    assert q.Pass(x, 0) == x && q.Pass(x, 1) == q.Past(0, x);
    assert z.Pass(x, 0) == x && z.Pass(x, 1) == z.Past(0, x);
  }

  /**
   When the answer 20 is in use, what happens next depends on the order of the table: with the partitions
   in the order of the disk, one pass leads beyond the limit and the command is given up, although sectors
   5 to 9 are free; in the other order it asks again, and finds them.
   */
  lemma OrderDecides()
    ensures TwoPartitions(true).Shaped() && TwoPartitions(true).Given([20, 5, 9]) == NoSpace
    ensures TwoPartitions(false).Shaped() && TwoPartitions(false).Given([20, 5, 9]) == Found(5, 9)
  {
    var q, z, answers := TwoPartitions(true), TwoPartitions(false), [20, 5, 9];
    TwoPasses(1);
    TwoPasses(20);
    assert q.Rest(1) == 1 && z.Rest(1) == 1;
    assert q.Pass(20, 2) == 101 && z.Pass(20, 2) == 50;
    hide Search.Pass, Search.Rest, Search.Given;
    assert GivesUp(q, answers, 0);
    NoSpaceIff(q, answers);
    AskedAgain(z, answers);
  }

  lemma AskedAgain(z: Search, answers: seq<u32>)
    requires z == TwoPartitions(false) && z.Shaped() && answers == [20, 5, 9]
    requires z.Rest(1) == 1 && z.Pass(20, 2) == 50
    ensures z.Given(answers) == Found(5, 9)
  {
    hide Search.Pass, Search.Rest, Search.Given, Search.Least, Search.StopFor;
    Settles(z, answers, 1);
    assert z.Begins(1, 5, 10);
    LeastIs(z, 5, 9);
    assert answers[2..][0] == 9;
    Stops(z, 5, 9, answers[2..], 0);
  }
}
