/**
  Pinning, unpinning and the pin status of a page interval, as functions on the tables of
  `AshmemRanges`, and the proof that they are set difference, set union and an overlap
  test on the set of unpinned pages.

  An interval start..end is inclusive; end + 1 == start is the empty interval, which a
  request of length zero produces.
 */
module AshmemPinning {
  import opened AshmemRanges

  // ---------- The page sets behind the tables ----------

  /** Page p of area a lies in an unpinned range whose purge flag is f. */
  ghost predicate HeldAs(m: Mem, a: AreaId, p: nat, f: bool) {
    exists id :: id in m.ranges && m.ranges[id].asma == a && m.ranges[id].purged == f && PageInRange(m.ranges[id], p)
  }

  ghost predicate Unpinned(m: Mem, a: AreaId, p: nat) {
    HeldAs(m, a, p, false) || HeldAs(m, a, p, true)
  }

  /** The ranges the loops of pin, unpin and status act on. */
  predicate Touches(r: Range, start: nat, end: nat) {
    !RangeBeforePage(r, start) && PageRangeInRange(r, start, end)
  }

  /** Every range of the area holds at least one page. */
  ghost predicate NoEmptyRange(m: Mem, a: AreaId) {
    forall id :: id in m.ranges && m.ranges[id].asma == a ==> m.ranges[id].pgstart <= m.ranges[id].pgend
  }

  // ---------- The operations ----------

  ghost predicate CanVisit(m: Mem, a: AreaId, i: nat) {
    && a in m.areas && i <= |m.areas[a].unpinned|
    && (forall j :: 0 <= j < |m.areas[a].unpinned| ==>
          m.areas[a].unpinned[j] in m.ranges && m.ranges[m.areas[a].unpinned[j]].asma == a)
    && NoDup(m.areas[a].unpinned)
  }

  /** A list with one element taken out, position by position. */
  lemma TakenOut(ids: seq<RangeId>, i: nat)
    requires NoDup(ids) && i < |ids|
    ensures var rest := ids[..i] + ids[i + 1..];
            NoDup(rest) && forall j :: 0 <= j < |rest| ==> rest[j] in ids && rest[j] != ids[i]
  {
    var rest := ids[..i] + ids[i + 1..];
    assert forall j :: 0 <= j < |rest| ==> rest[j] == ids[if j < i then j else j + 1];
  }

  lemma ListMembers(m: Mem, a: AreaId, i: nat, id: RangeId)
    requires CanVisit(m, a, i) && id in m.areas[a].unpinned
    ensures id in m.ranges && m.ranges[id].asma == a
  {
  }

  lemma DelCanVisit(m: Mem, a: AreaId, i: nat)
    requires CanVisit(m, a, i) && i < |m.areas[a].unpinned|
    ensures var m1 := RangeDel(m, m.areas[a].unpinned[i]);
            CanVisit(m1, a, 0) && CanVisit(m1, a, i) && |m1.areas[a].unpinned| == |m.areas[a].unpinned| - 1
  {
    hide RangeSize, NoDup;
    var ids := m.areas[a].unpinned;
    var rest := ids[..i] + ids[i + 1..];
    WithoutIndex(ids, i);
    TakenOut(ids, i);
    var m1 := RangeDel(m, ids[i]);
    assert m1.areas[a].unpinned == rest && m1.ranges == m.ranges - {ids[i]};
    forall j | 0 <= j < |rest|
      ensures rest[j] in m1.ranges && m1.ranges[rest[j]].asma == a
    {
      ListMembers(m, a, i, rest[j]);
    }
  }

  lemma ShrinkCanVisit(m: Mem, a: AreaId, i: nat, lo: nat, hi: nat)
    requires CanVisit(m, a, i) && i < |m.areas[a].unpinned|
    ensures var m1 := RangeShrink(m, m.areas[a].unpinned[i], lo, hi);
            CanVisit(m1, a, i + 1) && m1.areas == m.areas
  {
  }

  /** What one visit to a range leaves: the tables, the status so far, the next position, and whether to stop. */
  datatype Visit = Visit(mem: Mem, acc: bool, next: nat, stop: bool)

  /** One pass through the loop body of ashmem_pin, at list position i. */
  function PinVisit(m: Mem, a: AreaId, i: nat, start: nat, end: nat, acc: bool, fresh': RangeId): (v: Visit)
    requires CanVisit(m, a, i) && i < |m.areas[a].unpinned| && start <= end + 1 && fresh' !in m.ranges
    ensures !v.stop ==> CanVisit(v.mem, a, v.next) && fresh' !in v.mem.ranges
    ensures !v.stop ==> 0 <= |v.mem.areas[a].unpinned| - v.next < |m.areas[a].unpinned| - i
  {
    var id := m.areas[a].unpinned[i];
    var r := m.ranges[id];
    if RangeBeforePage(r, start) then Visit(m, acc, i, true)
    else if !PageRangeInRange(r, start, end) then Visit(m, acc, i + 1, false)
    else if PageRangeSubsumesRange(r, start, end) then
      DelCanVisit(m, a, i);
      Visit(RangeDel(m, id), acc || r.purged, i, false)
    else if r.pgstart >= start then
      ShrinkCanVisit(m, a, i, end + 1, r.pgend);
      Visit(RangeShrink(m, id, end + 1, r.pgend), acc || r.purged, i + 1, false)
    else if r.pgend <= end then
      ShrinkCanVisit(m, a, i, r.pgstart, start - 1);
      Visit(RangeShrink(m, id, r.pgstart, start - 1), acc || r.purged, i + 1, false)
    else
      var m1 := RangeAlloc(m, a, i, r.purged, end + 1, r.pgend, fresh');
      Visit(RangeShrink(m1, id, r.pgstart, start - 1), acc || r.purged, i, true)
  }

  /** The new bounds pgend + 1 and pgstart - 1 that a visit computes stay within size_t. */
  lemma PinBoundsDoNotWrap(m: Mem, a: AreaId, i: nat, start: nat, end: nat)
    requires ListsInv(m) && CanVisit(m, a, i) && i < |m.areas[a].unpinned|
    requires var r := m.ranges[m.areas[a].unpinned[i]]; Touches(r, start, end) && !PageRangeSubsumesRange(r, start, end)
    ensures var r := m.ranges[m.areas[a].unpinned[i]];
            && (r.pgstart >= start || r.pgend > end ==> end + 1 <= r.pgend < WORD)
            && (r.pgstart < start ==> 0 <= r.pgstart <= start - 1 < r.pgend)
  {
    assert GoodList(m.ranges, a, m.areas[a].unpinned);
  }

  /** ashmem_pin from list position i on, with the status `acc` gathered so far. */
  function PinFrom(m: Mem, a: AreaId, i: nat, start: nat, end: nat, acc: bool, fresh': RangeId): (r: (Mem, bool))
    requires CanVisit(m, a, i) && start <= end + 1 && fresh' !in m.ranges
    decreases |m.areas[a].unpinned| - i
  {
    if i == |m.areas[a].unpinned| then (m, acc) else
      var v := PinVisit(m, a, i, start, end, acc, fresh');
      if v.stop then (v.mem, v.acc) else PinFrom(v.mem, a, v.next, start, end, v.acc, fresh')
  }

  /** ashmem_unpin from list position i on, for the interval and purge flag merged so far. */
  function UnpinFrom(m: Mem, a: AreaId, i: nat, start: nat, end: nat, acc: bool, fresh': RangeId): (m': Mem)
    requires CanVisit(m, a, i) && start <= end + 1
    decreases |m.areas[a].unpinned|, |m.areas[a].unpinned| - i
  {
    if i == |m.areas[a].unpinned| then RangeAlloc(m, a, i, acc, start, end, fresh') else
      var id := m.areas[a].unpinned[i];
      var r := m.ranges[id];
      if RangeBeforePage(r, start) then RangeAlloc(m, a, i, acc, start, end, fresh')
      else if PageRangeSubsumedByRange(r, start, end) then m
      else if PageRangeInRange(r, start, end) then
        DelCanVisit(m, a, i);
        UnpinFrom(RangeDel(m, id), a, 0, Min(r.pgstart, start), Max(r.pgend, end), acc || r.purged, fresh')
      else UnpinFrom(m, a, i + 1, start, end, acc, fresh')
  }

  /** ashmem_get_pin_status from list position i on; true stands for ASHMEM_IS_UNPINNED. */
  predicate StatusFrom(m: Mem, a: AreaId, i: nat, start: nat, end: nat)
    requires CanVisit(m, a, i)
    decreases |m.areas[a].unpinned| - i
  {
    if i == |m.areas[a].unpinned| then false else
      var r := m.ranges[m.areas[a].unpinned[i]];
      if RangeBeforePage(r, start) then false
      else if PageRangeInRange(r, start, end) then true
      else StatusFrom(m, a, i + 1, start, end)
  }

  function Min(x: nat, y: nat): nat { if x < y then x else y }

  function Max(x: nat, y: nat): nat { if x > y then x else y }

  lemma InvCanVisit(m: Mem, a: AreaId)
    requires ListsInv(m) && a in m.areas
    ensures forall i :: 0 <= i <= |m.areas[a].unpinned| ==> CanVisit(m, a, i)
  {
    assert GoodList(m.ranges, a, m.areas[a].unpinned);
  }

  // ---------- Page sets after each primitive ----------

  lemma UniqueCover(m: Mem, x: RangeId, y: RangeId, p: nat)
    requires ListsInv(m) && x in m.ranges && y in m.ranges && m.ranges[x].asma == m.ranges[y].asma
    requires PageInRange(m.ranges[x], p) && PageInRange(m.ranges[y], p)
    ensures x == y
  {
    var a := m.ranges[x].asma;
    OwnList(m, x);
    OwnList(m, y);
    assert GoodList(m.ranges, a, m.areas[a].unpinned);
  }

  lemma HeldAfterDel(m: Mem, m': Mem, id: RangeId)
    requires ListsInv(m) && id in m.ranges && m'.ranges == m.ranges - {id}
    ensures forall b: AreaId, p: nat, f :: HeldAs(m', b, p, f) <==>
      HeldAs(m, b, p, f) && !(b == m.ranges[id].asma && PageInRange(m.ranges[id], p))
  {
    hide ListsInv;
    forall b: AreaId, p: nat, f
      ensures HeldAs(m', b, p, f) <==>
        HeldAs(m, b, p, f) && !(b == m.ranges[id].asma && PageInRange(m.ranges[id], p))
    {
      if HeldAs(m', b, p, f) {
        var k :| k in m'.ranges && m'.ranges[k].asma == b && m'.ranges[k].purged == f && PageInRange(m'.ranges[k], p);
        if b == m.ranges[id].asma && PageInRange(m.ranges[id], p) {
          UniqueCover(m, id, k, p);
        }
      }
      if HeldAs(m, b, p, f) && !(b == m.ranges[id].asma && PageInRange(m.ranges[id], p)) {
        var k :| k in m.ranges && m.ranges[k].asma == b && m.ranges[k].purged == f && PageInRange(m.ranges[k], p);
        assert k in m'.ranges && m'.ranges[k] == m.ranges[k];
      }
    }
  }

  lemma HeldAfterShrink(m: Mem, m': Mem, id: RangeId, r: Range)
    requires ListsInv(m) && id in m.ranges && m'.ranges == m.ranges[id := r]
    requires r.asma == m.ranges[id].asma && r.purged == m.ranges[id].purged
    requires m.ranges[id].pgstart <= r.pgstart && r.pgend <= m.ranges[id].pgend
    ensures forall b: AreaId, p: nat, f :: HeldAs(m', b, p, f) <==>
      HeldAs(m, b, p, f) && !(b == r.asma && PageInRange(m.ranges[id], p) && !PageInRange(r, p))
  {
    hide ListsInv;
    forall b: AreaId, p: nat, f
      ensures HeldAs(m', b, p, f) <==>
        HeldAs(m, b, p, f) && !(b == r.asma && PageInRange(m.ranges[id], p) && !PageInRange(r, p))
    {
      if HeldAs(m', b, p, f) {
        var k :| k in m'.ranges && m'.ranges[k].asma == b && m'.ranges[k].purged == f && PageInRange(m'.ranges[k], p);
        assert PageInRange(m.ranges[k], p);
        if b == r.asma && PageInRange(m.ranges[id], p) {
          UniqueCover(m, id, k, p);
        }
      }
      if HeldAs(m, b, p, f) && !(b == r.asma && PageInRange(m.ranges[id], p) && !PageInRange(r, p)) {
        var k :| k in m.ranges && m.ranges[k].asma == b && m.ranges[k].purged == f && PageInRange(m.ranges[k], p);
        assert k in m'.ranges && PageInRange(m'.ranges[k], p);
      }
    }
  }

  lemma HeldAfterAlloc(m: Mem, m': Mem, id: RangeId, r: Range)
    requires id !in m.ranges && m'.ranges == m.ranges[id := r]
    ensures forall b: AreaId, p: nat, f :: HeldAs(m', b, p, f) <==>
      HeldAs(m, b, p, f) || (b == r.asma && f == r.purged && PageInRange(r, p))
  {
    forall b: AreaId, p: nat, f
      ensures HeldAs(m', b, p, f) <==>
        HeldAs(m, b, p, f) || (b == r.asma && f == r.purged && PageInRange(r, p))
    {
      if HeldAs(m, b, p, f) {
        var k :| k in m.ranges && m.ranges[k].asma == b && m.ranges[k].purged == f && PageInRange(m.ranges[k], p);
        assert k in m'.ranges && m'.ranges[k] == m.ranges[k];
      }
      if b == r.asma && f == r.purged && PageInRange(r, p) {
        assert m'.ranges[id] == r;
      }
    }
  }

  // ---------- ashmem_pin is set difference ----------

  /** No range of the area holds a page of start..end. */
  ghost predicate Clear(m: Mem, a: AreaId, start: nat, end: nat) {
    forall p: nat, f :: start <= p <= end ==> !HeldAs(m, a, p, f)
  }

  /** The pages of start..end leave area a; every other page keeps its state and its purge flag. */
  ghost predicate PagesRemoved(m: Mem, m': Mem, a: AreaId, start: nat, end: nat) {
    forall b: AreaId, p: nat, f :: HeldAs(m', b, p, f) <==> HeldAs(m, b, p, f) && !(b == a && start <= p <= end)
  }

  ghost predicate Passed(m: Mem, a: AreaId, i: nat, start: nat, end: nat)
    requires CanVisit(m, a, i)
  {
    forall j, p: nat :: 0 <= j < i && start <= p <= end ==> !PageInRange(m.ranges[m.areas[a].unpinned[j]], p)
  }

  lemma PassedAll(m: Mem, a: AreaId, i: nat, start: nat, end: nat)
    requires ListsInv(m) && CanVisit(m, a, i) && Passed(m, a, i, start, end)
    requires i < |m.areas[a].unpinned| ==> RangeBeforePage(m.ranges[m.areas[a].unpinned[i]], start)
    ensures Clear(m, a, start, end)
    ensures forall j :: i <= j < |m.areas[a].unpinned| ==> RangeBeforePage(m.ranges[m.areas[a].unpinned[j]], start)
  {
    var ids := m.areas[a].unpinned;
    assert GoodList(m.ranges, a, ids);
    forall p: nat, f | start <= p <= end
      ensures !HeldAs(m, a, p, f)
    {
      forall k | k in m.ranges && m.ranges[k].asma == a
        ensures !PageInRange(m.ranges[k], p)
      {
        OwnList(m, k);
        var j :| 0 <= j < |ids| && ids[j] == k;
        assert j >= i ==> m.ranges[ids[j]].pgend <= m.ranges[ids[i]].pgend;
      }
    }
  }

  /** From m to m1 the pages of start..end left area a, as far as range r held them. */
  ghost predicate PagesCut(m: Mem, m1: Mem, a: AreaId, r: Range, start: nat, end: nat) {
    forall b: AreaId, p: nat, f ::
      HeldAs(m1, b, p, f) <==> (HeldAs(m, b, p, f) && !(b == a && start <= p <= end && PageInRange(r, p)))
  }

  lemma CutThenRemove(m: Mem, m1: Mem, m': Mem, a: AreaId, r: Range, start: nat, end: nat)
    requires PagesCut(m, m1, a, r, start, end) && PagesRemoved(m1, m', a, start, end)
    ensures PagesRemoved(m, m', a, start, end)
  {
  }

  /** Case 1 of ashmem_pin. */
  lemma DelStep(m: Mem, a: AreaId, i: nat, start: nat, end: nat)
    requires Inv(m) && CanVisit(m, a, i) && i < |m.areas[a].unpinned| && Passed(m, a, i, start, end)
    requires PageRangeSubsumesRange(m.ranges[m.areas[a].unpinned[i]], start, end)
    ensures var id := m.areas[a].unpinned[i];
            var m1 := RangeDel(m, id);
            && Inv(m1) && CanVisit(m1, a, i) && Passed(m1, a, i, start, end)
            && |m1.areas[a].unpinned| == |m.areas[a].unpinned| - 1
            && PagesCut(m, m1, a, m.ranges[id], start, end)
  {
    hide ListsInv, LruInv, Passed, PagesCut, RangeDel;
    DelShape(m, a, i);
    DelKeepsInv(m, a, i);
    InvCanVisit(RangeDel(m, m.areas[a].unpinned[i]), a);
    DelPasses(m, a, i, start, end);
    DelCuts(m, a, i, start, end);
  }

  lemma DelPasses(m: Mem, a: AreaId, i: nat, start: nat, end: nat)
    requires ListsInv(m) && CanVisit(m, a, i) && i < |m.areas[a].unpinned| && Passed(m, a, i, start, end)
    ensures var m1 := RangeDel(m, m.areas[a].unpinned[i]);
            CanVisit(m1, a, i) ==> Passed(m1, a, i, start, end)
  {
    hide ListsInv;
    DelShape(m, a, i);
    var m1 := RangeDel(m, m.areas[a].unpinned[i]);
    assert forall j :: 0 <= j < i ==> m1.areas[a].unpinned[j] == m.areas[a].unpinned[j];
  }

  lemma DelCuts(m: Mem, a: AreaId, i: nat, start: nat, end: nat)
    requires ListsInv(m) && CanVisit(m, a, i) && i < |m.areas[a].unpinned|
    requires PageRangeSubsumesRange(m.ranges[m.areas[a].unpinned[i]], start, end)
    ensures var id := m.areas[a].unpinned[i]; PagesCut(m, RangeDel(m, id), a, m.ranges[id], start, end)
  {
    hide ListsInv;
    var id := m.areas[a].unpinned[i];
    HeldAfterDel(m, RangeDel(m, id), id);
  }

  /** lo..hi is what start..end leaves of r when it overlaps one end of r. */
  predicate Trim(r: Range, start: nat, end: nat, lo: nat, hi: nat) {
    || (start <= r.pgstart <= end + 1 && end < r.pgend && lo == end + 1 && hi == r.pgend)
    || (r.pgstart < start <= r.pgend <= end && lo == r.pgstart && hi + 1 == start)
  }

  /** Cases 2 and 3 of ashmem_pin. */
  lemma ShrinkStep(m: Mem, a: AreaId, i: nat, start: nat, end: nat, lo: nat, hi: nat)
    requires Inv(m) && CanVisit(m, a, i) && i < |m.areas[a].unpinned| && Passed(m, a, i, start, end)
    requires Trim(m.ranges[m.areas[a].unpinned[i]], start, end, lo, hi)
    ensures var id := m.areas[a].unpinned[i];
            var m1 := RangeShrink(m, id, lo, hi);
            && Inv(m1) && m1.areas == m.areas && m1.ranges.Keys == m.ranges.Keys
            && CanVisit(m1, a, i + 1) && Passed(m1, a, i + 1, start, end)
            && PagesCut(m, m1, a, m.ranges[id], start, end)
  {
    hide ListsInv, LruInv, Passed;
    ShrinkKeepsInv(m, a, i, lo, hi);
    var id := m.areas[a].unpinned[i];
    var m1 := RangeShrink(m, id, lo, hi);
    HeldAfterShrink(m, m1, id, m1.ranges[id]);
    InvCanVisit(m1, a);
    ShrinkPasses(m, a, i, start, end, lo, hi);
  }

  lemma ShrinkPasses(m: Mem, a: AreaId, i: nat, start: nat, end: nat, lo: nat, hi: nat)
    requires CanVisit(m, a, i) && i < |m.areas[a].unpinned| && Passed(m, a, i, start, end)
    requires Trim(m.ranges[m.areas[a].unpinned[i]], start, end, lo, hi)
    ensures var m1 := RangeShrink(m, m.areas[a].unpinned[i], lo, hi);
            CanVisit(m1, a, i + 1) && Passed(m1, a, i + 1, start, end)
  {
    var id := m.areas[a].unpinned[i];
    var m1 := RangeShrink(m, id, lo, hi);
    forall j, p: nat | 0 <= j < i + 1 && start <= p <= end
      ensures !PageInRange(m1.ranges[m1.areas[a].unpinned[j]], p)
    {
      if j < i {
        assert m1.areas[a].unpinned[j] != id;
      }
    }
  }

  /** The two halves of case 4 commute; shrinking first never has two ranges overlap. */
  lemma SplitKeepsInv(m: Mem, a: AreaId, i: nat, start: nat, end: nat, fresh': RangeId)
    requires Inv(m) && CanVisit(m, a, i) && i < |m.areas[a].unpinned| && start <= end + 1 && fresh' !in m.ranges
    requires var r := m.ranges[m.areas[a].unpinned[i]]; r.pgstart < start && end < r.pgend
    ensures var id := m.areas[a].unpinned[i];
            var r := m.ranges[id];
            Inv(RangeAlloc(RangeShrink(m, id, r.pgstart, start - 1), a, i, r.purged, end + 1, r.pgend, fresh'))
  {
    hide ListsInv, LruInv;
    var id := m.areas[a].unpinned[i];
    var r := m.ranges[id];
    var n1 := RangeShrink(m, id, r.pgstart, start - 1);
    ShrinkKeepsInv(m, a, i, r.pgstart, start - 1);
    UpperPieceFits(m, n1, a, i, start, end);
    AllocKeepsInv(n1, a, i, r.purged, end + 1, r.pgend, fresh');
  }

  /** Case 4 of ashmem_pin: the hole leaves one piece on either side. */
  lemma SplitStep(m: Mem, a: AreaId, i: nat, start: nat, end: nat, fresh': RangeId)
    requires Inv(m) && CanVisit(m, a, i) && i < |m.areas[a].unpinned| && start <= end + 1 && fresh' !in m.ranges
    requires var r := m.ranges[m.areas[a].unpinned[i]]; r.pgstart < start && end < r.pgend
    ensures var id := m.areas[a].unpinned[i];
            var r := m.ranges[id];
            var m1 := RangeAlloc(m, a, i, r.purged, end + 1, r.pgend, fresh');
            var m2 := RangeShrink(m1, id, r.pgstart, start - 1);
            Inv(m2) && PagesRemoved(m, m2, a, start, end)
  {
    assert ListsInv(m);
    hide ListsInv, LruInv, PagesRemoved;
    SplitKeepsInv(m, a, i, start, end, fresh');
    SplitOrder(m, a, i, start, end, fresh');
    SplitRemoves(m, a, i, start, end, fresh');
  }

  lemma SplitRemoves(m: Mem, a: AreaId, i: nat, start: nat, end: nat, fresh': RangeId)
    requires ListsInv(m) && CanVisit(m, a, i) && i < |m.areas[a].unpinned| && start <= end + 1 && fresh' !in m.ranges
    requires var r := m.ranges[m.areas[a].unpinned[i]]; r.pgstart < start && end < r.pgend
    ensures var id := m.areas[a].unpinned[i];
            var r := m.ranges[id];
            var m1 := RangeAlloc(RangeShrink(m, id, r.pgstart, start - 1), a, i, r.purged, end + 1, r.pgend, fresh');
            PagesRemoved(m, m1, a, start, end)
  {
    var id := m.areas[a].unpinned[i];
    var r := m.ranges[id];
    var n1 := RangeShrink(m, id, r.pgstart, start - 1);
    HeldAfterShrink(m, n1, id, n1.ranges[id]);
    var n2 := RangeAlloc(n1, a, i, r.purged, end + 1, r.pgend, fresh');
    HeldAfterAlloc(n1, n2, fresh', Range(a, end + 1, r.pgend, r.purged));
    SplitPages(m, n1, n2, a, id, start, end);
  }

  lemma UpperPieceFits(m: Mem, n1: Mem, a: AreaId, i: nat, start: nat, end: nat)
    requires ListsInv(m) && CanVisit(m, a, i) && i < |m.areas[a].unpinned| && start <= end + 1
    requires var r := m.ranges[m.areas[a].unpinned[i]]; r.pgstart < start && end < r.pgend
    requires n1.areas == m.areas
    requires n1.ranges == m.ranges[m.areas[a].unpinned[i] := m.ranges[m.areas[a].unpinned[i]].(pgend := start - 1)]
    ensures var ids := m.areas[a].unpinned;
            var r := m.ranges[ids[i]];
            && WellFormed(Range(a, end + 1, r.pgend, r.purged))
            && (forall j :: 0 <= j < i ==> ids[j] in n1.ranges && r.pgend < n1.ranges[ids[j]].pgstart)
            && (forall j :: i <= j < |ids| ==> ids[j] in n1.ranges && n1.ranges[ids[j]].pgend < end + 1)
  {
    assert GoodList(m.ranges, a, m.areas[a].unpinned);
  }

  /** One visit keeps the tables consistent and takes out no pages but those asked for. */
  ghost predicate VisitCut(m: Mem, a: AreaId, i: nat, start: nat, end: nat, v: Visit)
    requires CanVisit(m, a, i) && i < |m.areas[a].unpinned|
    requires !v.stop ==> CanVisit(v.mem, a, v.next)
  {
    && Inv(v.mem)
    && (v.stop ==> PagesRemoved(m, v.mem, a, start, end))
    && (!v.stop ==> Passed(v.mem, a, v.next, start, end))
    && (!v.stop ==> PagesCut(m, v.mem, a, m.ranges[m.areas[a].unpinned[i]], start, end))
  }

  lemma VisitLeaves(m: Mem, a: AreaId, i: nat, start: nat, end: nat, acc: bool, fresh': RangeId)
    requires Inv(m) && CanVisit(m, a, i) && i < |m.areas[a].unpinned| && start <= end + 1 && fresh' !in m.ranges
    requires Passed(m, a, i, start, end)
    requires !Touches(m.ranges[m.areas[a].unpinned[i]], start, end)
    ensures VisitCut(m, a, i, start, end, PinVisit(m, a, i, start, end, acc, fresh'))
  {
    if RangeBeforePage(m.ranges[m.areas[a].unpinned[i]], start) {
      PassedAll(m, a, i, start, end);
    }
  }

  lemma VisitTrims(m: Mem, a: AreaId, i: nat, start: nat, end: nat, acc: bool, fresh': RangeId)
    requires Inv(m) && CanVisit(m, a, i) && i < |m.areas[a].unpinned| && start <= end + 1 && fresh' !in m.ranges
    requires Passed(m, a, i, start, end)
    requires Touches(m.ranges[m.areas[a].unpinned[i]], start, end)
    requires !PageRangeSubsumesRange(m.ranges[m.areas[a].unpinned[i]], start, end)
    requires m.ranges[m.areas[a].unpinned[i]].pgstart >= start || m.ranges[m.areas[a].unpinned[i]].pgend <= end
    ensures VisitCut(m, a, i, start, end, PinVisit(m, a, i, start, end, acc, fresh'))
  {
    hide Inv, Passed, PagesCut;
    var r := m.ranges[m.areas[a].unpinned[i]];
    if r.pgstart >= start {
      ShrinkStep(m, a, i, start, end, end + 1, r.pgend);
    } else {
      ShrinkStep(m, a, i, start, end, r.pgstart, start - 1);
    }
  }

  lemma VisitCuts(m: Mem, a: AreaId, i: nat, start: nat, end: nat, acc: bool, fresh': RangeId)
    requires Inv(m) && CanVisit(m, a, i) && i < |m.areas[a].unpinned| && start <= end + 1 && fresh' !in m.ranges
    requires Passed(m, a, i, start, end)
    ensures VisitCut(m, a, i, start, end, PinVisit(m, a, i, start, end, acc, fresh'))
  {
    hide Inv, Passed, PagesCut, PagesRemoved;
    var r := m.ranges[m.areas[a].unpinned[i]];
    if !Touches(r, start, end) {
      VisitLeaves(m, a, i, start, end, acc, fresh');
    } else if PageRangeSubsumesRange(r, start, end) {
      DelStep(m, a, i, start, end);
    } else if r.pgstart >= start || r.pgend <= end {
      VisitTrims(m, a, i, start, end, acc, fresh');
    } else {
      SplitStep(m, a, i, start, end, fresh');
    }
  }

  /**
    ashmem_pin takes exactly the pages of the interval out of the area's unpinned set.
    Every page that stays keeps its purge flag, and the tables stay consistent.
   */
  lemma {:induction false} PinFromIsDifference(m: Mem, a: AreaId, i: nat, start: nat, end: nat, acc: bool,
      fresh': RangeId)
    requires Inv(m) && CanVisit(m, a, i) && start <= end + 1 && fresh' !in m.ranges
    requires Passed(m, a, i, start, end)
    ensures Inv(PinFrom(m, a, i, start, end, acc, fresh').0)
    ensures PagesRemoved(m, PinFrom(m, a, i, start, end, acc, fresh').0, a, start, end)
    decreases |m.areas[a].unpinned| - i
  {
    if i == |m.areas[a].unpinned| {
      PassedAll(m, a, i, start, end);
    } else {
      VisitCuts(m, a, i, start, end, acc, fresh');
      var v := PinVisit(m, a, i, start, end, acc, fresh');
      if !v.stop {
        PinFromIsDifference(v.mem, a, v.next, start, end, v.acc, fresh');
        CutThenRemove(m, v.mem, PinFrom(v.mem, a, v.next, start, end, v.acc, fresh').0,
                      a, m.ranges[m.areas[a].unpinned[i]], start, end);
      }
    }
  }

  lemma SplitPages(m: Mem, n1: Mem, n2: Mem, a: AreaId, id: RangeId, start: nat, end: nat)
    requires ListsInv(m) && id in m.ranges && m.ranges[id].asma == a && start <= end + 1
    requires m.ranges[id].pgstart < start && end < m.ranges[id].pgend
    requires forall b: AreaId, p: nat, f :: HeldAs(n1, b, p, f) <==>
      (HeldAs(m, b, p, f) && !(b == a && PageInRange(m.ranges[id], p) && !(m.ranges[id].pgstart <= p <= start - 1)))
    requires forall b: AreaId, p: nat, f :: HeldAs(n2, b, p, f) <==>
      (HeldAs(n1, b, p, f) || (b == a && f == m.ranges[id].purged && end + 1 <= p <= m.ranges[id].pgend))
    ensures PagesRemoved(m, n2, a, start, end)
  {
    hide ListsInv;
    forall b: AreaId, p: nat, f
      ensures HeldAs(n2, b, p, f) <==> HeldAs(m, b, p, f) && !(b == a && start <= p <= end)
    {
      if b == a && PageInRange(m.ranges[id], p) && HeldAs(m, b, p, f) {
        var k :| k in m.ranges && m.ranges[k].asma == b && m.ranges[k].purged == f && PageInRange(m.ranges[k], p);
        UniqueCover(m, id, k, p);
      }
    }
  }

  lemma SplitOrder(m: Mem, a: AreaId, i: nat, start: nat, end: nat, fresh': RangeId)
    requires CanVisit(m, a, i) && i < |m.areas[a].unpinned| && fresh' !in m.ranges
    requires var r := m.ranges[m.areas[a].unpinned[i]]; r.pgstart < start && end < r.pgend
    ensures var id := m.areas[a].unpinned[i];
            var r := m.ranges[id];
            RangeShrink(RangeAlloc(m, a, i, r.purged, end + 1, r.pgend, fresh'), id, r.pgstart, start - 1) ==
            RangeAlloc(RangeShrink(m, id, r.pgstart, start - 1), a, i, r.purged, end + 1, r.pgend, fresh')
  {
    var id := m.areas[a].unpinned[i];
    var r := m.ranges[id];
    var upper := Range(a, end + 1, r.pgend, r.purged);
    var lower := r.(pgend := start - 1);
    assert m.ranges[fresh' := upper][id := lower] == m.ranges[id := lower][fresh' := upper];
    if !r.purged {
      WrapMix(m.lruCount, RangeSize(upper), (RangeSize(r) - RangeSize(lower)) % WORD);
    }
  }

  lemma WrapMix(c: int, x: int, d: int)
    ensures ((c + x) % WORD - d) % WORD == ((c - d) % WORD + x) % WORD
  {
    var q1, q2 := (c + x) / WORD, (c - d) / WORD;
    assert (c + x) % WORD - d == (c + x - d) - WORD * q1;
    assert (c - d) % WORD + x == (c + x - d) - WORD * q2;
    assert ((c + x - d) - WORD * q1) % WORD == (c + x - d) % WORD;
    assert ((c + x - d) - WORD * q2) % WORD == (c + x - d) % WORD;
  }

  // ---------- What ashmem_pin and ashmem_get_pin_status report ----------

  /** Some range from list position i on meets start..end; `flagged` looks at purged ranges only. */
  ghost predicate TouchedFrom(m: Mem, a: AreaId, i: nat, start: nat, end: nat, flagged: bool)
    requires CanVisit(m, a, i)
  {
    exists j :: i <= j < |m.areas[a].unpinned| && Touches(m.ranges[m.areas[a].unpinned[j]], start, end)
      && (flagged ==> m.ranges[m.areas[a].unpinned[j]].purged)
  }

  ghost predicate Touched(m: Mem, a: AreaId, start: nat, end: nat, flagged: bool) {
    exists id :: id in m.ranges && m.ranges[id].asma == a && Touches(m.ranges[id], start, end)
      && (flagged ==> m.ranges[id].purged)
  }

  lemma TouchedIffListed(m: Mem, a: AreaId, start: nat, end: nat, flagged: bool)
    requires ListsInv(m) && a in m.areas && CanVisit(m, a, 0)
    ensures TouchedFrom(m, a, 0, start, end, flagged) <==> Touched(m, a, start, end, flagged)
  {
    if Touched(m, a, start, end, flagged) {
      var id :| id in m.ranges && m.ranges[id].asma == a && Touches(m.ranges[id], start, end)
        && (flagged ==> m.ranges[id].purged);
      OwnList(m, id);
    }
  }

  /** The lists run from high pages to low, so once a range is before the interval all later ones are. */
  lemma RestIsBefore(m: Mem, a: AreaId, i: nat, start: nat)
    requires ListsInv(m) && CanVisit(m, a, i) && i < |m.areas[a].unpinned|
    requires RangeBeforePage(m.ranges[m.areas[a].unpinned[i]], start)
             || m.ranges[m.areas[a].unpinned[i]].pgstart < start
    ensures forall j :: i < j < |m.areas[a].unpinned| ==> RangeBeforePage(m.ranges[m.areas[a].unpinned[j]], start)
  {
    assert GoodList(m.ranges, a, m.areas[a].unpinned);
  }

  lemma {:induction false} StatusFromFindsOverlap(m: Mem, a: AreaId, i: nat, start: nat, end: nat)
    requires ListsInv(m) && CanVisit(m, a, i)
    ensures StatusFrom(m, a, i, start, end) <==> TouchedFrom(m, a, i, start, end, false)
    decreases |m.areas[a].unpinned| - i
  {
    if i < |m.areas[a].unpinned| {
      var r := m.ranges[m.areas[a].unpinned[i]];
      if RangeBeforePage(r, start) {
        RestIsBefore(m, a, i, start);
      } else if !PageRangeInRange(r, start, end) {
        StatusFromFindsOverlap(m, a, i + 1, start, end);
      }
    }
  }

  lemma VisitKeepsRest(m: Mem, a: AreaId, i: nat, start: nat, end: nat, acc: bool, fresh': RangeId)
    requires ListsInv(m) && CanVisit(m, a, i) && i < |m.areas[a].unpinned| && start <= end + 1 && fresh' !in m.ranges
    ensures var v := PinVisit(m, a, i, start, end, acc, fresh');
            var r := m.ranges[m.areas[a].unpinned[i]];
            v.acc <==> acc || (r.purged && Touches(r, start, end))
    ensures PinVisit(m, a, i, start, end, acc, fresh').stop ==>
      var r := m.ranges[m.areas[a].unpinned[i]]; RangeBeforePage(r, start) || r.pgstart < start
    ensures !PinVisit(m, a, i, start, end, acc, fresh').stop ==>
      var v := PinVisit(m, a, i, start, end, acc, fresh');
      SameFrom(m, i + 1, v.mem, v.next, a)
  {
    hide ListsInv, RangeDel, RangeShrink, RangeAlloc, SameFrom;
    var id := m.areas[a].unpinned[i];
    var r := m.ranges[id];
    if PageRangeSubsumesRange(r, start, end) && Touches(r, start, end) {
      DelSameFrom(m, a, i);
    } else if Touches(r, start, end) && r.pgstart >= start {
      ShrinkSameFrom(m, a, i, end + 1, r.pgend);
    } else if Touches(r, start, end) && r.pgend <= end {
      ShrinkSameFrom(m, a, i, r.pgstart, start - 1);
    } else if !Touches(r, start, end) {
      SameAsItself(m, a, i + 1);
    }
  }

  lemma DelSameFrom(m: Mem, a: AreaId, i: nat)
    requires ListsInv(m) && CanVisit(m, a, i) && i < |m.areas[a].unpinned|
    ensures var m1 := RangeDel(m, m.areas[a].unpinned[i]);
            CanVisit(m1, a, i) ==> SameFrom(m, i + 1, m1, i, a)
  {
    hide ListsInv;
    DelShape(m, a, i);
  }

  lemma ShrinkSameFrom(m: Mem, a: AreaId, i: nat, lo: nat, hi: nat)
    requires CanVisit(m, a, i) && i < |m.areas[a].unpinned|
    ensures var m1 := RangeShrink(m, m.areas[a].unpinned[i], lo, hi);
            CanVisit(m1, a, i + 1) && SameFrom(m, i + 1, m1, i + 1, a)
  {
  }

  lemma SameAsItself(m: Mem, a: AreaId, i: nat)
    requires CanVisit(m, a, i)
    ensures SameFrom(m, i, m, i, a)
  {
  }

  /** The ranges of a's list from position i of m on are those from position k of m1 on. */
  ghost predicate SameFrom(m: Mem, i: nat, m1: Mem, k: nat, a: AreaId)
    requires CanVisit(m, a, i) && CanVisit(m1, a, k)
  {
    var ids, ids1 := m.areas[a].unpinned, m1.areas[a].unpinned;
    && ids1[k..] == ids[i..]
    && (forall j :: i <= j < |ids| ==> ids[j] in m1.ranges && m1.ranges[ids[j]] == m.ranges[ids[j]])
  }

  lemma SameFromTouched(m: Mem, i: nat, m1: Mem, k: nat, a: AreaId, start: nat, end: nat, flagged: bool)
    requires CanVisit(m, a, i) && CanVisit(m1, a, k) && SameFrom(m, i, m1, k, a)
    ensures TouchedFrom(m, a, i, start, end, flagged) <==> TouchedFrom(m1, a, k, start, end, flagged)
  {
    var ids, ids1 := m.areas[a].unpinned, m1.areas[a].unpinned;
    assert |ids1[k..]| == |ids[i..]|;
    assert forall j :: i <= j < |ids| ==> ids[j] == ids[i..][j - i] == ids1[j - i + k];
    assert forall j :: k <= j < |ids1| ==> ids1[j] == ids1[k..][j - k] == ids[j - k + i];
    if TouchedFrom(m, a, i, start, end, flagged) {
      var j :| i <= j < |ids| && Touches(m.ranges[ids[j]], start, end) && (flagged ==> m.ranges[ids[j]].purged);
      assert m1.ranges[ids1[j - i + k]] == m.ranges[ids[j]];
    }
    if TouchedFrom(m1, a, k, start, end, flagged) {
      var j :| k <= j < |ids1| && Touches(m1.ranges[ids1[j]], start, end) && (flagged ==> m1.ranges[ids1[j]].purged);
      assert m1.ranges[ids1[j]] == m.ranges[ids[j - k + i]];
    }
  }

  lemma VisitReports(m: Mem, a: AreaId, i: nat, start: nat, end: nat, acc: bool, fresh': RangeId)
    requires ListsInv(m) && CanVisit(m, a, i) && i < |m.areas[a].unpinned| && start <= end + 1 && fresh' !in m.ranges
    ensures var v := PinVisit(m, a, i, start, end, acc, fresh');
            (acc || TouchedFrom(m, a, i, start, end, true)) <==>
            (v.acc || (!v.stop && TouchedFrom(v.mem, a, v.next, start, end, true)))
  {
    hide ListsInv, PinVisit, SameFrom;
    var v := PinVisit(m, a, i, start, end, acc, fresh');
    VisitKeepsRest(m, a, i, start, end, acc, fresh');
    if v.stop {
      RestIsBefore(m, a, i, start);
    } else {
      SameFromTouched(m, i + 1, v.mem, v.next, a, start, end, true);
    }
  }

  lemma {:induction false} PinFromReports(m: Mem, a: AreaId, i: nat, start: nat, end: nat, acc: bool, fresh': RangeId)
    requires Inv(m) && CanVisit(m, a, i) && start <= end + 1 && fresh' !in m.ranges && Passed(m, a, i, start, end)
    ensures PinFrom(m, a, i, start, end, acc, fresh').1 <==> acc || TouchedFrom(m, a, i, start, end, true)
    decreases |m.areas[a].unpinned| - i
  {
    if i < |m.areas[a].unpinned| {
      VisitReports(m, a, i, start, end, acc, fresh');
      VisitCuts(m, a, i, start, end, acc, fresh');
      var v := PinVisit(m, a, i, start, end, acc, fresh');
      if !v.stop {
        PinFromReports(v.mem, a, v.next, start, end, v.acc, fresh');
      }
    }
  }

  /** The interval holds an unpinned page; `flagged` looks at purged ones only. */
  ghost predicate PageMet(m: Mem, a: AreaId, start: nat, end: nat, flagged: bool) {
    exists p: nat :: start <= p <= end && (HeldAs(m, a, p, true) || (!flagged && HeldAs(m, a, p, false)))
  }

  ghost predicate EmptyRangeInside(m: Mem, a: AreaId, start: nat, end: nat, flagged: bool) {
    exists id :: id in m.ranges && m.ranges[id].asma == a && m.ranges[id].pgend + 1 == m.ranges[id].pgstart
      && start < m.ranges[id].pgstart <= end + 1 && (flagged ==> m.ranges[id].purged)
  }

  /**
    An overlap with a range is an overlap in pages, except for an empty range strictly inside the
    interval.  An empty interval is tested like the one page it stands before.
   */
  lemma TouchedInPages(m: Mem, a: AreaId, start: nat, end: nat, flagged: bool)
    requires ListsInv(m) && start <= end + 1
    ensures Touched(m, a, start, end, flagged) <==>
      PageMet(m, a, start, Max(start, end), flagged) || EmptyRangeInside(m, a, start, end, flagged)
  {
    hide ListsInv;
    if Touched(m, a, start, end, flagged) {
      var id :| id in m.ranges && m.ranges[id].asma == a && Touches(m.ranges[id], start, end)
        && (flagged ==> m.ranges[id].purged);
      OwnList(m, id);
      RangeMeetsPage(m, a, id, start, end);
    }
    if PageMet(m, a, start, Max(start, end), flagged) {
      var p: nat :| start <= p <= Max(start, end) && (HeldAs(m, a, p, true) || (!flagged && HeldAs(m, a, p, false)));
      var f := HeldAs(m, a, p, true);
      var id :| id in m.ranges && m.ranges[id].asma == a && m.ranges[id].purged == f && PageInRange(m.ranges[id], p);
      assert Touches(m.ranges[id], start, end);
    }
    if EmptyRangeInside(m, a, start, end, flagged) {
      var id :| id in m.ranges && m.ranges[id].asma == a && m.ranges[id].pgend + 1 == m.ranges[id].pgstart
        && start < m.ranges[id].pgstart <= end + 1 && (flagged ==> m.ranges[id].purged);
      assert Touches(m.ranges[id], start, end);
    }
  }

  lemma RangeMeetsPage(m: Mem, a: AreaId, id: RangeId, start: nat, end: nat)
    requires id in m.ranges && m.ranges[id].asma == a && Touches(m.ranges[id], start, end)
    requires start <= end + 1 && WellFormed(m.ranges[id])
    ensures (m.ranges[id].pgend + 1 == m.ranges[id].pgstart && start < m.ranges[id].pgstart <= end + 1)
            || exists p: nat :: start <= p <= Max(start, end) && HeldAs(m, a, p, m.ranges[id].purged)
  {
    var r := m.ranges[id];
    if r.pgstart <= r.pgend {
      var p := Max(r.pgstart, start);
      assert PageInRange(r, p) && start <= p <= Max(start, end);
      assert HeldAs(m, a, p, r.purged);
    }
  }

  /**
    ashmem_get_pin_status answers UNPINNED exactly when the interval holds an unpinned page
    or an empty range sits strictly inside it.  Without empty ranges the answer is exact.
    For an empty interval the page in question is the one it stands before.
   */
  lemma StatusIsOverlap(m: Mem, a: AreaId, start: nat, end: nat)
    requires Inv(m) && a in m.areas && CanVisit(m, a, 0) && start <= end + 1
    ensures StatusFrom(m, a, 0, start, end) <==>
      PageMet(m, a, start, Max(start, end), false) || EmptyRangeInside(m, a, start, end, false)
    ensures NoEmptyRange(m, a) ==>
      (StatusFrom(m, a, 0, start, end) <==> PageMet(m, a, start, Max(start, end), false))
  {
    StatusFromFindsOverlap(m, a, 0, start, end);
    TouchedIffListed(m, a, start, end, false);
    TouchedInPages(m, a, start, end, false);
  }

  /** ashmem_pin as a whole. */
  function Pin(m: Mem, a: AreaId, start: nat, end: nat, fresh': RangeId): (r: (Mem, bool))
    requires CanVisit(m, a, 0) && start <= end + 1 && fresh' !in m.ranges
  {
    PinFrom(m, a, 0, start, end, false, fresh')
  }

  lemma PinIsDifference(m: Mem, a: AreaId, start: nat, end: nat, fresh': RangeId)
    requires Inv(m) && CanVisit(m, a, 0) && start <= end + 1 && fresh' !in m.ranges
    ensures Inv(Pin(m, a, start, end, fresh').0)
    ensures PagesRemoved(m, Pin(m, a, start, end, fresh').0, a, start, end)
    ensures Pin(m, a, start, end, fresh').1 <==> Touched(m, a, start, end, true)
  {
    PinFromIsDifference(m, a, 0, start, end, false, fresh');
    PinFromReports(m, a, 0, start, end, false, fresh');
    TouchedIffListed(m, a, start, end, true);
  }

  /** Pinning a purged page always reports WAS_PURGED; without empty ranges nothing else does. */
  lemma PinReportsPurge(m: Mem, a: AreaId, start: nat, end: nat, fresh': RangeId)
    requires Inv(m) && CanVisit(m, a, 0) && start <= end + 1 && fresh' !in m.ranges
    ensures PageMet(m, a, start, Max(start, end), true) ==> Pin(m, a, start, end, fresh').1
    ensures NoEmptyRange(m, a) ==>
      (Pin(m, a, start, end, fresh').1 <==> PageMet(m, a, start, Max(start, end), true))
  {
    PinIsDifference(m, a, start, end, fresh');
    TouchedInPages(m, a, start, end, true);
  }

  // ---------- What pinning leaves alone ----------

  /** m and m' differ in area a's ranges only; sizes and backing files are untouched. */
  ghost predicate OnlyRangesOf(m: Mem, m': Mem, a: AreaId) {
    && m'.areas.Keys == m.areas.Keys
    && (forall b :: b in m.areas ==> m'.areas[b].size == m.areas[b].size && m'.areas[b].file == m.areas[b].file)
    && (forall b :: b in m.areas && b != a ==> m'.areas[b] == m.areas[b])
    && (forall id :: id in m.ranges && m.ranges[id].asma != a ==> id in m'.ranges && m'.ranges[id] == m.ranges[id])
    && (forall id :: id in m'.ranges && m'.ranges[id].asma != a ==> id in m.ranges && m'.ranges[id] == m.ranges[id])
  }

  /** Every range of area a ends before page `limit` and, if `solid`, is not empty. */
  ghost predicate Bounded(m: Mem, a: AreaId, limit: int, solid: bool) {
    forall id :: id in m.ranges && m.ranges[id].asma == a ==>
      m.ranges[id].pgend < limit && (solid ==> m.ranges[id].pgstart <= m.ranges[id].pgend)
  }

  lemma DelFrame(m: Mem, id: RangeId)
    requires id in m.ranges && m.ranges[id].asma in m.areas
    ensures OnlyRangesOf(m, RangeDel(m, id), m.ranges[id].asma)
  {
  }

  lemma ShrinkFrame(m: Mem, id: RangeId, start: nat, end: nat)
    requires id in m.ranges
    ensures OnlyRangesOf(m, RangeShrink(m, id, start, end), m.ranges[id].asma)
  {
  }

  lemma AllocFrame(m: Mem, a: AreaId, pos: nat, purged: bool, start: nat, end: nat, id: RangeId)
    requires a in m.areas && pos <= |m.areas[a].unpinned| && id !in m.ranges
    ensures OnlyRangesOf(m, RangeAlloc(m, a, pos, purged, start, end, id), a)
  {
  }

  lemma FrameSame(m: Mem, a: AreaId)
    ensures OnlyRangesOf(m, m, a)
  {
  }

  lemma FrameThenFrame(m: Mem, m1: Mem, m2: Mem, a: AreaId)
    requires OnlyRangesOf(m, m1, a) && OnlyRangesOf(m1, m2, a)
    ensures OnlyRangesOf(m, m2, a)
  {
  }

  lemma VisitFrame(m: Mem, a: AreaId, i: nat, start: nat, end: nat, acc: bool, fresh': RangeId)
    requires CanVisit(m, a, i) && i < |m.areas[a].unpinned| && start <= end + 1 && fresh' !in m.ranges
    ensures OnlyRangesOf(m, PinVisit(m, a, i, start, end, acc, fresh').mem, a)
  {
    hide OnlyRangesOf;
    FrameSame(m, a);
    var id := m.areas[a].unpinned[i];
    var r := m.ranges[id];
    if !Touches(r, start, end) {
    } else if PageRangeSubsumesRange(r, start, end) {
      DelFrame(m, id);
    } else if r.pgstart >= start {
      ShrinkFrame(m, id, end + 1, r.pgend);
    } else if r.pgend <= end {
      ShrinkFrame(m, id, r.pgstart, start - 1);
    } else {
      var m1 := RangeAlloc(m, a, i, r.purged, end + 1, r.pgend, fresh');
      AllocFrame(m, a, i, r.purged, end + 1, r.pgend, fresh');
      ShrinkFrame(m1, id, r.pgstart, start - 1);
      FrameThenFrame(m, m1, RangeShrink(m1, id, r.pgstart, start - 1), a);
    }
  }

  lemma VisitBounded(m: Mem, a: AreaId, i: nat, start: nat, end: nat, acc: bool, fresh': RangeId, limit: int,
      solid: bool)
    requires CanVisit(m, a, i) && i < |m.areas[a].unpinned| && start <= end + 1 && fresh' !in m.ranges
    requires Bounded(m, a, limit, solid)
    ensures Bounded(PinVisit(m, a, i, start, end, acc, fresh').mem, a, limit, solid)
  {
  }

  /** Apart from area a's ranges nothing changes; no range ends later, and none becomes empty. */
  lemma {:induction false} PinFromFrame(m: Mem, a: AreaId, i: nat, start: nat, end: nat, acc: bool, fresh': RangeId,
                                        limit: int, solid: bool)
    requires CanVisit(m, a, i) && start <= end + 1 && fresh' !in m.ranges
    requires Bounded(m, a, limit, solid)
    ensures var m' := PinFrom(m, a, i, start, end, acc, fresh').0;
            OnlyRangesOf(m, m', a) && Bounded(m', a, limit, solid)
    decreases |m.areas[a].unpinned| - i
  {
    hide Bounded, PinVisit;
    if i < |m.areas[a].unpinned| {
      var v := PinVisit(m, a, i, start, end, acc, fresh');
      VisitFrame(m, a, i, start, end, acc, fresh');
      VisitBounded(m, a, i, start, end, acc, fresh', limit, solid);
      if !v.stop {
        PinFromFrame(v.mem, a, v.next, start, end, v.acc, fresh', limit, solid);
        FrameThenFrame(m, v.mem, PinFrom(v.mem, a, v.next, start, end, v.acc, fresh').0, a);
      }
    }
  }
}
