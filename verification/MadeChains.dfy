/**
 Chains of the editor's own making (fdisk.c): how their buffers are laid out,
 marked and placed, and that every edit keeps it so.
 */
module MadeChains {
  import opened Words
  import opened Chs
  import opened ExtendedChain
  import opened ChainFiles

  /** A buffer laid out the way add_partition and add_logical do it: the partition first, then the link. */
  predicate Made(l: Link) {
    && l.part == 0 && l.ext == 1 && l.slots[2] == NO_PART && l.slots[3] == NO_PART
    && Data(l).kind != EXTENDED && Next(l).kind in {0, EXTENDED}
  }

  lemma MadeTidy(l: Link)
    requires Made(l)
    ensures TidyLink(l)
  {
    TwoSlots(l.slots);
  }

  predicate AllMade(links: seq<Link>) {
    forall k :: 0 <= k < |links| ==> Made(links[k])
  }

  lemma DeleteMade(links: seq<Link>, base: u32, k: nat)
    requires AllMade(links) && k < |links|
    ensures AllMade(Delete(links, base, k))
  {
    hide Made, WithData, WithNext, Rebased, Redirected, Next;
    MadeChanges(links[0], base);
    if 0 < k {
      MadeChanges(links[k - 1], base);
      MadeRedirected(links[k - 1], Next(links[k]));
    } else if 1 < |links| {
      MadeChanges(links[1], base);
    }
  }

  lemma MadeChanges(l: Link, base: u32)
    requires Made(l)
    ensures Made(WithData(l, NO_PART)) && Made(Rebased(l, base)) && Made(WithNext(l, NO_PART, l.changed))
  {
  }

  lemma MadeRedirected(l: Link, q: Part)
    requires Made(l)
    ensures Made(WithNext(l, Redirected(q), true))
  {
  }

  lemma AddMade(links: seq<Link>, base: u32, g: Geometry, dos: bool, start: u32, stop: u32, sectorOffset: u32,
      changed: bool)
    requires AllMade(links) && 0 < |links| && g.Sane()
    ensures AllMade(Filled(Opened(links, changed), base, g, dos, start, stop, sectorOffset))
  {
    hide Made, WithData, WithNext, SetPartition, Data;
    var ready := Opened(links, changed);
    var n, table := |ready| - 1, Sub32(start, sectorOffset);
    BlankMade(changed);
    assert AllMade(ready);
    MadeFilled(ready[n], ready[n].offset, g, dos, start, stop);
    MadeFilled(ready[n], table, g, dos, start, stop);
    if 0 < n {
      MadePointer(ready[n - 1], g, dos, table, stop, base);
    }
  }

  lemma BlankMade(changed: bool)
    ensures Made(Record(0, NO_SLOTS, 0, 1, changed))
  {
  }

  lemma MadeFilled(l: Link, offset: u32, g: Geometry, dos: bool, start: u32, stop: u32)
    requires Made(l) && g.Sane()
    ensures Made(WithData(l.(offset := offset), SetPartition(g, dos, start, stop, LINUX_NATIVE, offset)))
  {
    hide SetHsc, Clamp;
  }

  lemma MadePointer(l: Link, g: Geometry, dos: bool, table: u32, stop: u32, base: u32)
    requires Made(l) && g.Sane()
    ensures Made(WithNext(l, SetPartition(g, dos, table, stop, EXTENDED, base), true))
  {
    hide SetHsc, Clamp;
  }

  // ----- marks

  predicate AllMarked(links: seq<Link>) {
    forall k :: 0 <= k < |links| ==> links[k].changed
  }

  lemma DeleteMarked(links: seq<Link>, base: u32, k: nat)
    requires AllMarked(links) && k < |links|
    ensures AllMarked(Delete(links, base, k))
  {
    hide Next, Redirected;
  }

  lemma AddMarked(links: seq<Link>, base: u32, g: Geometry, dos: bool, start: u32, stop: u32, sectorOffset: u32,
                  changed: bool)
    requires AllMarked(links) && 0 < |links| && g.Sane()
    ensures AllMarked(Filled(Opened(links, changed), base, g, dos, start, stop, sectorOffset))
  {
    FilledOffsets(links, base, g, dos, start, stop, sectorOffset, changed);
  }

  // ----- places

  /** Every link but the first holds a partition, `hop` sectors after its own, and lies behind the first. */
  predicate Spaced(links: seq<Link>, base: u32, hop: nat) {
    forall k :: 0 < k < |links| ==> Leads(links[k], base, hop)
  }

  predicate Leads(l: Link, base: u32, hop: nat) {
    LogicalOf(l).kind != 0 && base < l.offset && LogicalOf(l).start == l.offset + hop
  }

  lemma DeleteSpaced(links: seq<Link>, base: u32, k: nat, hop: nat)
    requires Chain(links, base) && Spaced(links, base, hop) && k < |links|
    ensures Spaced(Delete(links, base, k), base, hop)
  {
    hide WithNext, WithData, Redirected, Next, Rebased, LogicalOf;
    var n, r := |links|, Delete(links, base, k);
    assert k < n - 1 ==> Linked(links[k], links[k + 1], base);
    DeleteLength(links, base, k);
    forall j | 0 < j < |r| ensures Leads(r[j], base, hop) {
      assert Leads(links[Came(links, k, j)], base, hop);
      if 0 < k && j == k - 1 {
        NextKeeps(links[j], NO_PART, links[j].changed);
        NextKeeps(links[j], Redirected(Next(links[k])), true);
      }
    }
  }

  lemma NextKeeps(l: Link, p: Part, changed: bool)
    ensures LogicalOf(WithNext(l, p, changed)) == LogicalOf(l) && WithNext(l, p, changed).offset == l.offset
  {
  }

  /** A partition that is not next to the first link, and starts where no other does, brings its link to
      a place of its own. */
  lemma AddSpaced(links: seq<Link>, base: u32, g: Geometry, dos: bool, start: u32, stop: u32, hop: u32, changed: bool)
    requires Chain(links, base) && |links| < MOST_LINKS && g.Sane() && Spaced(links, base, hop) && Distinct(links)
    requires |links| < |Opened(links, changed)| ==> base + hop < start
    requires forall k :: 0 <= k < |links| && LogicalOf(links[k]).kind != 0 ==> LogicalOf(links[k]).start != start
    ensures var r := Filled(Opened(links, changed), base, g, dos, start, stop, hop); Spaced(r, base, hop) && Distinct(r)
    ensures |Opened(links, changed)| == |links| || !Taken(links, Sub32(start, hop))
  {
    hide Filled, LogicalOf, Linked, Next;
    var r := Filled(Opened(links, changed), base, g, dos, start, stop, hop);
    FilledOffsets(links, base, g, dos, start, stop, hop, changed);
    OpenedLength(links, changed);
    AddKeepsChain(links, base, g, dos, start, stop, hop, changed);
    forall j | 0 < j < |r| ensures Leads(r[j], base, hop) {
      assert Logicals(r)[j] == LogicalOf(r[j]);
      assert j < |links| ==> Leads(links[j], base, hop) && Logicals(links)[j] == LogicalOf(links[j]);
      assert 1 < |links| || LogicalOf(links[0]).kind != 0 by {
        EmptyFifth(links[0]);
      }
    }
    if |links| < |r| {
      forall k | 0 <= k < |links| ensures links[k].offset != Sub32(start, hop) {
        assert 0 < k ==> Leads(links[k], base, hop);
      }
    }
  }

  // ----- what link pointers cover

  /** The pointer in `l` covers the sectors from link `m` to the end of its partition. */
  predicate Spans(l: Link, m: Link, base: u32) {
    var p, q := Next(l), LogicalOf(m);
    && p.boot == 0 && p.kind == EXTENDED && base + p.start == m.offset
    && m.offset + p.count == q.start + q.count && p.endChs == q.endChs
  }

  predicate AllSpan(links: seq<Link>, base: u32) {
    forall k :: 0 <= k < |links| - 1 ==> Spans(links[k], links[k + 1], base)
  }

  lemma SpanKept(l: Link, m: Link, base: u32, n: Link)
    requires Spans(l, m, base) && LogicalOf(n) == LogicalOf(m) && n.offset == m.offset
    ensures Spans(l, n, base)
  {
  }

  lemma SpanMoved(l: Link, m: Link, base: u32, n: Link)
    requires Spans(l, m, base) && (Next(n) == Next(l) || Next(n) == Redirected(Next(l)))
    ensures Spans(n, m, base)
  {
  }

  lemma SpanPoints(l: Link, m: Link, base: u32)
    requires Spans(l, m, base)
    ensures Next(l).kind == EXTENDED
  {
  }

  /**
   Deleting a logical partition with others behind it moves their pointers up by one: the link in front
   of it leads where its own did, and every other pointer stays with its partition.
   */
  lemma DeletePoints(links: seq<Link>, base: u32, k: nat)
    requires Chain(links, base) && k < |links| - 1
    ensures var r := Delete(links, base, k);
      && |r| == |links| - 1
      && forall j :: 0 <= j < |r| ==>
           Next(r[j]) == if j + 1 < k then Next(links[j]) else if j + 1 == k then Next(links[k]).(boot := 0)
                         else Next(links[j + 1])
  {
    MiddlePoints(links, base, k);
    RedirectedPart(Next(links[k]));
    hide Chain, Next, WithNext, WithData, Rebased, Redirected, Linked;
    var r := Delete(links, base, k);
    forall j | 0 <= j < |r|
      ensures Next(r[j]) == if j + 1 < k then Next(links[j]) else if j + 1 == k then Next(links[k]).(boot := 0)
                            else Next(links[j + 1])
    {
      if k == 0 {
        assert r[j] == if j == 0 then Rebased(links[1], base) else links[j + 1];
      } else if j + 1 == k {
        assert r[j] == WithNext(links[k - 1], Redirected(Next(links[k])), true);
      } else {
        assert r[j] == if j + 1 < k then links[j] else links[j + 1];
      }
    }
  }

  lemma RedirectedPart(q: Part)
    ensures q.kind == EXTENDED ==> Redirected(q) == q.(boot := 0)
  {
  }

  /** Deleting hands a pointer on to the link in front. */
  lemma DeleteSpans(links: seq<Link>, base: u32, k: nat)
    requires AllSpan(links, base) && k < |links|
    ensures AllSpan(Delete(links, base, k), base)
  {
    var n, r := |links|, Delete(links, base, k);
    if k < n - 1 {
      SpanPoints(links[k], links[k + 1], base);
    }
    hide Spans, Next, LogicalOf, WithNext, WithData, Rebased, Redirected;
    forall j | 0 <= j < |r| - 1 ensures Spans(r[j], r[j + 1], base) {
      if k == 0 {
        SpanMoved(links[j + 1], links[j + 2], base, r[j]);
      } else if j < k - 1 {
        NextKeeps(links[k - 1], NO_PART, links[k - 1].changed);
        NextKeeps(links[k - 1], Redirected(Next(links[k])), true);
        SpanKept(links[j], links[j + 1], base, r[j + 1]);
      } else {
        SpanMoved(links[j + 1], links[j + 2], base, r[j]);
      }
    }
  }

  lemma PointerSpans(links: seq<Link>, base: u32, g: Geometry, dos: bool, start: u32, stop: u32, hop: u32,
                     changed: bool)
    requires 0 < |links| < |Opened(links, changed)| && g.Sane()
    requires base + hop <= start <= stop < U32 - 1
    ensures 0 < g.FullBits()
    ensures var n, r := |links|, Filled(Opened(links, changed), base, g, dos, start, stop, hop);
      && |r| == n + 1 && Spans(r[n - 1], r[n], base)
      && Addresses(g, dos, start - hop, Next(r[n - 1]).chs) && Addresses(g, dos, stop, Next(r[n - 1]).endChs)
  {
    var ready := Opened(links, changed);
    var table: u32 := start - hop;
    PartitionWritten(g, dos, table, stop, EXTENDED, base);
    FilledLink(ready, base, g, dos, start, stop, hop);
    LogicalExtent(g, dos, start, stop);
    hide LogicalOf, NewLogical, Addresses, SetPartition, WithNext, WithData, Next;
    assert Filled(ready, base, g, dos, start, stop, hop)[|links| - 1] ==
      WithNext(ready[|links| - 1], SetPartition(g, dos, table, stop, EXTENDED, base), true);
    SameEnd(g, dos, table, start, stop, base);
  }

  lemma LogicalExtent(g: Geometry, dos: bool, start: u32, stop: u32)
    requires g.Sane() && start <= stop < U32 - 1
    ensures var l := NewLogical(g, dos, start, stop); l.start == start && start + l.count == stop + 1
  {
    hide SetHsc, Clamp;
  }

  lemma SameEnd(g: Geometry, dos: bool, table: u32, start: u32, stop: u32, base: u32)
    requires g.Sane()
    ensures SetPartition(g, dos, table, stop, EXTENDED, base).endChs == NewLogical(g, dos, start, stop).endChs
  {
    hide SetHsc, Clamp;
  }

  /** A pointer that add_partition writes has the addresses of the link sector and of the end of the partition. */
  lemma AddSpans(links: seq<Link>, base: u32, g: Geometry, dos: bool, start: u32, stop: u32, hop: u32, changed: bool)
    requires 0 < |links| && AllSpan(links, base) && g.Sane() && start <= stop < U32 - 1
    requires |links| < |Opened(links, changed)| ==> base + hop <= start
    ensures 0 < g.FullBits()
    ensures var r := Filled(Opened(links, changed), base, g, dos, start, stop, hop);
      && AllSpan(r, base)
      && (|links| < |r| ==> Addresses(g, dos, start - hop, Next(r[|links| - 1]).chs)
                            && Addresses(g, dos, stop, Next(r[|links| - 1]).endChs))
  {
    CylinderPositive(g);
    hide Spans, Next, LogicalOf, WithNext, WithData, SetPartition, NewLogical, Addresses;
    var ready := Opened(links, changed);
    var n, r := |ready| - 1, Filled(ready, base, g, dos, start, stop, hop);
    FilledFront(links, base, g, dos, start, stop, hop, changed);
    FilledLink(ready, base, g, dos, start, stop, hop);
    if 0 < n {
      PointerSpans(links, base, g, dos, start, stop, hop, changed);
      forall j | 0 <= j < n - 1 ensures Spans(r[j], r[j + 1], base) {
        assert r[j] == links[j];
        SpanKept(links[j], links[j + 1], base, r[j + 1]);
      }
    }
  }
}
