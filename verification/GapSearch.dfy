/**
 The search of add_partition for the sectors of a new partition (fdisk.c).
 What the user types is a list of numbers; when it runs out, the command is
 abandoned.
 */
module GapSearch {
  import opened Words
  import opened GapModel
  import Chs

  /** read_int: the next answer within bounds. */
  method ReadInt(low: u32, high: u32, answers: seq<u32>, used: nat) returns (value: u32, next: nat, ok: bool)
    requires used <= |answers|
    ensures used <= next <= |answers|
    ensures ok ==> used < next && low <= value <= high && value == answers[next - 1]
    ensures forall k :: used <= k < (if ok then next - 1 else |answers|) ==> !(low <= answers[k] <= high)
  {
    next := used;
    while next < |answers|
      invariant used <= next <= |answers|
      invariant forall k :: used <= k < next ==> !(low <= answers[k] <= high)
    {
      value := answers[next];
      next := next + 1;
      if low <= value <= high {
        return value, next, true;
      }
    }
    return 0, next, false;
  }

  /** Where the methods below stay within words. */
  lemma PassBelow(q: Search, top: nat, x: int, n: nat)
    requires q.Sound(top) && x <= top + q.hop && n <= |q.first|
    ensures q.Shaped() && q.Pass(x, n) <= top + q.hop
  {
    if n != 0 {
      PassBelow(q, top, x, n - 1);
    }
  }

  lemma PassNone(q: Search, x: int)
    requires q.Shaped()
    ensures q.Pass(x, 0) == x
  {
  }

  lemma PassNext(q: Search, x: int, i: nat)
    requires q.Shaped() && i < |q.first|
    ensures q.Pass(x, i + 1) == q.Past(i, q.Pass(x, i))
  {
  }

  /** One pass over the partitions: past every one that blocks the start, in the order of the table. */
  method Advance(q: Search, top: nat, begin: u32) returns (start: u32)
    requires q.Sound(top) && begin <= top + q.hop
    ensures q.Shaped() && start == q.Pass(begin, |q.first|) <= top + q.hop
  {
    SoundShaped(q, top);
    hide Search.Pass, Search.Blocks;
    start := begin;
    PassNone(q, begin);
    var i := 0;
    while i < |q.first|
      invariant 0 <= i <= |q.first| && start == q.Pass(begin, i) <= top + q.hop
    {
      PassBelow(q, top, begin, i + 1);
      PassNext(q, begin, i);
      if start == q.offsets[i] {
        start := start + q.hop;
      }
      if q.first[i] <= start <= q.last[i] {
        start := q.last[i] + q.step;
      }
      i := i + 1;
    }
  }

  /** Asking for the start; a cylinder is taken to mean its first sector, or the first one that is left of it. */
  method AskStart(q: Search, top: nat, from: u32, answers: seq<u32>, used: nat)
    returns (start: u32, next: nat, ok: bool)
    requires q.Sound(top) && from <= q.limit && used <= |answers|
    ensures used <= next <= |answers|
    ensures ok ==> used < next && q.InBounds(answers[next - 1], from) && start == q.Meant(answers[next - 1], from)
    ensures forall k :: used <= k < (if ok then next - 1 else |answers|) ==> !q.InBounds(answers[k], from)
  {
    hide FirstSector, Search.Cround, Search.Names;
    var i: u32 := from + q.extra;
    var most := q.Cround(q.limit);
    start, next, ok := ReadInt(q.Cround(i), most, answers, used);
    forall k | used <= k < (if ok then next else |answers|)
      ensures q.InBounds(answers[k], from) <==> q.Cround(i) <= answers[k] <= most
    {
      NamesRounded(q, answers[k], i, q.limit);
    }
    if ok && q.unit {
      FirstSectorMonotone(start, most, q.factor);
      FirstSectorMonotone(1, start, q.factor);
      start := FirstSector(start, q.factor);
      if start < i {
        start := i;
      }
    }
  }

  /** The first loop of add_partition: a start that no partition blocks and the user agrees to. */
  method FindStart(q: Search, top: nat, answers: seq<u32>) returns (gap: Gap, used: nat)
    requires q.Sound(top)
    ensures q.Shaped() && gap == q.StartFor(answers)
    ensures gap.Found? ==> used == q.Refusals(q.Rest(q.lowest), answers) + 1 <= |answers|
  {
    hide Search.InBounds, Search.Meant, Search.Pass, Search.Unblocked, Search.Refusals;
    SoundShaped(q, top);
    RestStays(q, q.lowest);
    var start, stop, read := q.lowest, 0, false;
    used := 0;
    while true
      invariant used <= |answers| && q.lowest <= start <= top + q.hop
      invariant if read then stop == q.Rest(q.lowest) <= q.limit else used == 0 && q.Rest(start) == q.Rest(q.lowest)
      invariant read ==> 0 < used && q.InBounds(answers[used - 1], stop) && start == q.Meant(answers[used - 1], stop)
      invariant read ==> forall k :: 0 <= k < used - 1 ==> q.Refused(answers[k], stop)
      decreases |answers| - used, if read then 1 else 0, top + q.hop - start
    {
      var temp := start;
      start := Advance(q, top, start);
      if start > q.limit {
        if read {
          RefusalsAre(q, stop, answers, used - 1);
        }
        return NoSpace, used;
      }
      if start != temp && read {
        temp := stop;
        start := stop;
        read := false;
      }
      if !read && start == temp {
        stop := start;
        var ok;
        start, used, ok := AskStart(q, top, start, answers, used);
        if !ok {
          RefusalsAre(q, stop, answers, |answers|);
          return Aborted, used;
        }
        read := true;
        q.MeantBounds(answers[used - 1], stop);
      }
      if start == temp && read {
        RefusalsAre(q, stop, answers, used - 1);
        return Found(start, start), used;
      }
    }
  }

  /** The second loop of add_partition: the limit, brought down to the next partition or link sector. */
  method Trim(q: Search, start: u32) returns (limit: u32)
    requires q.Shaped() && start <= q.limit
    ensures limit == q.Least(start, |q.first|)
  {
    hide Search.Clear, Search.Begins;
    limit := q.limit;
    var i := 0;
    while i < |q.first|
      invariant 0 <= i <= |q.first| && start <= limit == q.Least(start, i)
    {
      if start < q.offsets[i] && limit >= q.offsets[i] {
        limit := q.offsets[i] - 1;
      }
      if start < q.first[i] && limit >= q.first[i] {
        limit := q.first[i] - 1;
      }
      i := i + 1;
    }
  }

  /** The last question: up to where, within the limit. */
  method AskStop(q: Search, start: u32, limit: u32, answers: seq<u32>, used: nat) returns (gap: Gap)
    requires q.Shaped() && start <= limit <= q.limit && used <= |answers|
    ensures gap == q.StopFor(start, limit, answers[used..])
  {
    hide FirstSector, Search.Cround, Search.Names, Search.Passed;
    var least, most := q.Cround(start), q.Cround(limit);
    if least == most {
      return Found(start, start);
    }
    var stop, next, ok := ReadInt(least, most, answers, used);
    forall k | used <= k < (if ok then next else |answers|)
      ensures q.Names(answers[k], start, limit) <==> least <= answers[k] <= most
    {
      NamesRounded(q, answers[k], start, limit);
    }
    PassedAre(q, answers[used..], start, limit, if ok then next - 1 - used else |answers| - used);
    if !ok {
      return Aborted;
    }
    if q.unit {
      NextCylinder(least, stop, most, q.factor);
      stop := stop * q.factor - 1;
      if stop > limit {
        stop := limit;
      }
    }
    gap := Found(start, stop);
  }

  lemma NextCylinder(least: nat, stop: nat, most: nat, factor: nat)
    requires 1 <= factor && 1 <= least <= stop <= most
    ensures FirstSector(least, factor) + factor <= stop * factor <= FirstSector(most, factor) + factor
    ensures stop * factor == FirstSector(stop, factor) + factor
  {
    Chs.Monotone(factor, least, stop);
    Chs.Monotone(factor, stop, most);
  }

  /** The search of add_partition as a whole. */
  method FindGap(q: Search, top: nat, answers: seq<u32>) returns (gap: Gap)
    requires q.Sound(top)
    ensures Answers(q, answers, gap) && (gap.Found? ==> Granted(q, gap.start, gap.stop))
  {
    hide Search.StartFor, Search.StopFor, Search.Least, Search.Rest, Search.Refusals;
    var used;
    gap, used := FindStart(q, top, answers);
    if gap.Found? {
      StartMeans(q, answers);
      var limit := Trim(q, gap.start);
      gap := AskStop(q, gap.start, limit, answers, used);
    }
    GivenObeys(q, answers);
    hide Search.Given, Granted, Obeys;
    if gap.Found? {
      GivenGranted(q, answers);
    }
  }

  lemma StartMeans(q: Search, answers: seq<u32>)
    requires q.Shaped() && q.StartFor(answers).Found?
    ensures q.StartFor(answers).start <= q.limit
  {
  }
}
