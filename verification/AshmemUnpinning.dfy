/** ashmem_unpin is set union on the unpinned pages, and never forgets a purge. */
module AshmemUnpinning {
  import opened AshmemRanges
  import opened AshmemPinning

  /** The pages of start..end join area a's unpinned set, no purge flag is dropped, other areas are as before. */
  ghost predicate PagesAdded(m: Mem, m': Mem, a: AreaId, start: nat, end: nat) {
    && (forall p: nat :: Unpinned(m', a, p) <==> Unpinned(m, a, p) || start <= p <= end)
    && (forall p: nat :: HeldAs(m, a, p, true) ==> HeldAs(m', a, p, true))
    && (forall b: AreaId, p: nat, f :: b != a ==> (HeldAs(m', b, p, f) <==> HeldAs(m, b, p, f)))
  }

  ghost predicate NoneSubsumes(m: Mem, a: AreaId, start: nat, end: nat) {
    forall id :: id in m.ranges && m.ranges[id].asma == a ==> !PageRangeSubsumedByRange(m.ranges[id], start, end)
  }

  ghost predicate AllPurged(m: Mem, a: AreaId, start: nat, end: nat) {
    forall p: nat :: start <= p <= end ==> HeldAs(m, a, p, true)
  }

  /** The ranges already visited lie above the interval. */
  ghost predicate Above(m: Mem, a: AreaId, i: nat, end: nat)
    requires CanVisit(m, a, i)
  {
    forall j :: 0 <= j < i ==> end < m.ranges[m.areas[a].unpinned[j]].pgstart
  }

  lemma InsertKeepsInv(m: Mem, a: AreaId, i: nat, start: nat, end: nat, acc: bool, fresh': RangeId)
    requires Inv(m) && CanVisit(m, a, i) && start <= end + 1 && end < WORD && fresh' !in m.ranges && Above(m, a, i, end)
    requires i < |m.areas[a].unpinned| ==> RangeBeforePage(m.ranges[m.areas[a].unpinned[i]], start)
    ensures Inv(RangeAlloc(m, a, i, acc, start, end, fresh'))
  {
    hide GoodList, OnLruIffNotPurged;
    if i < |m.areas[a].unpinned| {
      RestIsBefore(m, a, i, start);
    }
    hide ListsInv, LruInv;
    AllocKeepsInv(m, a, i, acc, start, end, fresh');
  }

  lemma InsertAdds(m: Mem, a: AreaId, i: nat, start: nat, end: nat, acc: bool, fresh': RangeId)
    requires CanVisit(m, a, i) && fresh' !in m.ranges
    ensures PagesAdded(m, RangeAlloc(m, a, i, acc, start, end, fresh'), a, start, end)
    ensures acc ==> AllPurged(RangeAlloc(m, a, i, acc, start, end, fresh'), a, start, end)
  {
    HeldAfterAlloc(m, RangeAlloc(m, a, i, acc, start, end, fresh'), fresh', Range(a, start, end, acc));
  }

  /** What absorbing range r into the interval does to the page sets. */
  lemma AbsorbStep(m: Mem, a: AreaId, i: nat, start: nat, end: nat)
    requires Inv(m) && CanVisit(m, a, i) && i < |m.areas[a].unpinned|
    ensures var id := m.areas[a].unpinned[i];
            var m1 := RangeDel(m, id);
            && Inv(m1) && CanVisit(m1, a, 0) && Above(m1, a, 0, end)
            && |m1.areas[a].unpinned| < |m.areas[a].unpinned|
            && m1.ranges == m.ranges - {id}
            && (forall b: AreaId, p: nat, f :: HeldAs(m1, b, p, f) <==>
                  (HeldAs(m, b, p, f) && !(b == a && PageInRange(m.ranges[id], p))))
  {
    DelShape(m, a, i);
    DelKeepsInv(m, a, i);
    var id := m.areas[a].unpinned[i];
    HeldAfterDel(m, RangeDel(m, id), id);
    InvCanVisit(RangeDel(m, id), a);
  }

  /** Once a range with pages has been absorbed, no other range can subsume the interval. */
  lemma AbsorbedLeavesNoSubsumer(m: Mem, a: AreaId, id: RangeId, start: nat, end: nat, p: nat)
    requires ListsInv(m) && id in m.ranges && m.ranges[id].asma == a && PageInRange(m.ranges[id], p)
    requires start <= p <= end
    ensures forall k :: k in m.ranges && k != id && m.ranges[k].asma == a ==>
      !PageRangeSubsumedByRange(m.ranges[k], start, end)
  {
    forall k | k in m.ranges && k != id && m.ranges[k].asma == a
      ensures !PageRangeSubsumedByRange(m.ranges[k], start, end)
    {
      if PageInRange(m.ranges[k], p) {
        UniqueCover(m, id, k, p);
      }
    }
  }

  /**
    ashmem_unpin from list position i on: the unpinned set becomes the union with the interval,
    every page that was purged stays purged, and the tables stay consistent.
   */
  lemma {:induction false} UnpinFromIsUnion(m: Mem, a: AreaId, i: nat, start: nat, end: nat, acc: bool, fresh': RangeId)
    requires Inv(m) && CanVisit(m, a, i) && start <= end + 1 && end < WORD && fresh' !in m.ranges && Above(m, a, i, end)
    ensures Inv(UnpinFrom(m, a, i, start, end, acc, fresh'))
    ensures PagesAdded(m, UnpinFrom(m, a, i, start, end, acc, fresh'), a, start, end)
    ensures acc && NoneSubsumes(m, a, start, end) ==>
            AllPurged(UnpinFrom(m, a, i, start, end, acc, fresh'), a, start, end)
    decreases |m.areas[a].unpinned|, |m.areas[a].unpinned| - i
  {
    hide ListsInv, LruInv, PagesAdded, AllPurged, NoneSubsumes;
    var ids := m.areas[a].unpinned;
    if i == |ids| || RangeBeforePage(m.ranges[ids[i]], start) {
      InsertKeepsInv(m, a, i, start, end, acc, fresh');
      InsertAdds(m, a, i, start, end, acc, fresh');
    } else {
      var id := ids[i];
      var r := m.ranges[id];
      if PageRangeSubsumedByRange(r, start, end) {
        SubsumedStep(m, a, id, start, end);
      } else if PageRangeInRange(r, start, end) {
        AbsorbStep(m, a, i, start, end);
        var m1 := RangeDel(m, id);
        var lo, hi := Min(r.pgstart, start), Max(r.pgend, end);
        OwnList(m, id);
        UnpinFromIsUnion(m1, a, 0, lo, hi, acc || r.purged, fresh');
        AbsorbUnion(m, m1, UnpinFrom(m1, a, 0, lo, hi, acc || r.purged, fresh'), a, id, start, end, acc);
      } else {
        UnpinFromIsUnion(m, a, i + 1, start, end, acc, fresh');
      }
    }
  }

  lemma SubsumedStep(m: Mem, a: AreaId, id: RangeId, start: nat, end: nat)
    requires id in m.ranges && m.ranges[id].asma == a && PageRangeSubsumedByRange(m.ranges[id], start, end)
    ensures PagesAdded(m, m, a, start, end) && !NoneSubsumes(m, a, start, end)
  {
    forall p: nat | start <= p <= end
      ensures Unpinned(m, a, p)
    {
      assert HeldAs(m, a, p, m.ranges[id].purged);
    }
  }

  lemma AbsorbUnion(m: Mem, m1: Mem, m': Mem, a: AreaId, id: RangeId, start: nat, end: nat, acc: bool)
    requires ListsInv(m) && id in m.ranges && m.ranges[id].asma == a && m1.ranges == m.ranges - {id}
    requires Touches(m.ranges[id], start, end) && WellFormed(m.ranges[id]) && start <= end + 1
    requires forall b: AreaId, p: nat, f :: HeldAs(m1, b, p, f) <==>
      (HeldAs(m, b, p, f) && !(b == a && PageInRange(m.ranges[id], p)))
    requires PagesAdded(m1, m', a, Min(m.ranges[id].pgstart, start), Max(m.ranges[id].pgend, end))
    requires (acc || m.ranges[id].purged)
             && NoneSubsumes(m1, a, Min(m.ranges[id].pgstart, start), Max(m.ranges[id].pgend, end))
             ==> AllPurged(m', a, Min(m.ranges[id].pgstart, start), Max(m.ranges[id].pgend, end))
    ensures PagesAdded(m, m', a, start, end)
    ensures acc && NoneSubsumes(m, a, start, end) ==> AllPurged(m', a, start, end)
  {
    hide ListsInv;
    var r := m.ranges[id];
    var lo, hi := Min(r.pgstart, start), Max(r.pgend, end);
    forall p: nat
      ensures PageInRange(r, p) ==> Unpinned(m, a, p)
      ensures lo <= p <= hi ==> PageInRange(r, p) || start <= p <= end
    {
      if PageInRange(r, p) {
        assert HeldAs(m, a, p, r.purged);
      }
    }
    forall p: nat | HeldAs(m, a, p, true)
      ensures HeldAs(m', a, p, true)
    {
      if PageInRange(r, p) {
        var k :| k in m.ranges && m.ranges[k].asma == a && m.ranges[k].purged && PageInRange(m.ranges[k], p);
        UniqueCover(m, id, k, p);
        AbsorbedLeavesNoSubsumer(m, a, id, lo, hi, p);
      }
    }
    if NoneSubsumes(m, a, start, end) {
      assert NoneSubsumes(m1, a, lo, hi);
    }
  }

  // ---------- What unpinning builds and leaves alone ----------

  /** m' is m, or m with some ranges of area a replaced by the one range `fresh'`. */
  ghost predicate Merged(m: Mem, m': Mem, a: AreaId, start: nat, end: nat, acc: bool, fresh': RangeId) {
    && (forall id :: id in m'.ranges && id != fresh' ==> id in m.ranges && m'.ranges[id] == m.ranges[id])
    && (fresh' in m'.ranges ==>
          var r' := m'.ranges[fresh'];
          && r'.asma == a && r'.pgstart <= start && end <= r'.pgend
          && (forall id :: id in m.ranges && id !in m'.ranges ==>
                m.ranges[id].asma == a && r'.pgstart <= m.ranges[id].pgstart && m.ranges[id].pgend <= r'.pgend)
          && (r'.purged <==> acc || exists id :: id in m.ranges && id !in m'.ranges && m.ranges[id].purged))
  }

  lemma MergedAfterDel(m: Mem, m1: Mem, m': Mem, a: AreaId, id: RangeId, start: nat, end: nat, acc: bool,
      fresh': RangeId)
    requires id in m.ranges && m.ranges[id].asma == a && fresh' !in m.ranges
    requires m1.ranges == m.ranges - {id}
    requires Merged(m1, m', a, Min(m.ranges[id].pgstart, start), Max(m.ranges[id].pgend, end),
                    acc || m.ranges[id].purged, fresh')
    ensures Merged(m, m', a, start, end, acc, fresh')
  {
    if fresh' in m'.ranges && m'.ranges[fresh'].purged && !acc && !m.ranges[id].purged {
      var k :| k in m.ranges && k != id && k !in m'.ranges && m.ranges[k].purged;
    }
  }

  lemma MergedBase(m: Mem, a: AreaId, i: nat, start: nat, end: nat, acc: bool, fresh': RangeId)
    requires a in m.areas && i <= |m.areas[a].unpinned| && fresh' !in m.ranges
    ensures Merged(m, m, a, start, end, acc, fresh')
    ensures Merged(m, RangeAlloc(m, a, i, acc, start, end, fresh'), a, start, end, acc, fresh')
  {
  }

  /** The new range spans the interval and all it absorbed, and its purge flag is the OR of theirs. */
  lemma {:induction false} UnpinFromMerges(m: Mem, a: AreaId, i: nat, start: nat, end: nat, acc: bool, fresh': RangeId)
    requires ListsInv(m) && CanVisit(m, a, i) && start <= end + 1 && fresh' !in m.ranges
    ensures Merged(m, UnpinFrom(m, a, i, start, end, acc, fresh'), a, start, end, acc, fresh')
    ensures OnlyRangesOf(m, UnpinFrom(m, a, i, start, end, acc, fresh'), a)
    decreases |m.areas[a].unpinned|, |m.areas[a].unpinned| - i
  {
    hide OnlyRangesOf, Merged, ListsInv, RangeDel;
    FrameSame(m, a);
    MergedBase(m, a, i, start, end, acc, fresh');
    var ids := m.areas[a].unpinned;
    if i == |ids| || RangeBeforePage(m.ranges[ids[i]], start) {
      AllocFrame(m, a, i, acc, start, end, fresh');
    } else {
      var r := m.ranges[ids[i]];
      if !PageRangeSubsumedByRange(r, start, end) {
        if PageRangeInRange(r, start, end) {
          DelShape(m, a, i);
          DelFrame(m, ids[i]);
          var m1 := RangeDel(m, ids[i]);
          DelKeepsLists(m, m1, a, i);
          InvCanVisit(m1, a);
          UnpinFromMerges(m1, a, 0, Min(r.pgstart, start), Max(r.pgend, end), acc || r.purged, fresh');
          var m' := UnpinFrom(m, a, i, start, end, acc, fresh');
          FrameThenFrame(m, m1, m', a);
          MergedAfterDel(m, m1, m', a, ids[i], start, end, acc, fresh');
        } else {
          UnpinFromMerges(m, a, i + 1, start, end, acc, fresh');
        }
      }
    }
  }

  /** With no empty range about, the early return leaves the tables exactly as they were. */
  lemma {:induction false} EarlyReturnChangesNothing(m: Mem, a: AreaId, i: nat, start: nat, end: nat, acc: bool,
      fresh': RangeId)
    requires ListsInv(m) && CanVisit(m, a, i) && start <= end + 1 && fresh' !in m.ranges && NoEmptyRange(m, a)
    ensures fresh' !in UnpinFrom(m, a, i, start, end, acc, fresh').ranges ==>
            UnpinFrom(m, a, i, start, end, acc, fresh') == m
    ensures NoneSubsumes(m, a, start, end) ==> fresh' in UnpinFrom(m, a, i, start, end, acc, fresh').ranges
    decreases |m.areas[a].unpinned|, |m.areas[a].unpinned| - i
  {
    var ids := m.areas[a].unpinned;
    if i < |ids| && !RangeBeforePage(m.ranges[ids[i]], start)
       && !PageRangeSubsumedByRange(m.ranges[ids[i]], start, end) {
      var r := m.ranges[ids[i]];
      if PageRangeInRange(r, start, end) {
        DelShape(m, a, i);
        var m1 := RangeDel(m, ids[i]);
        DelKeepsLists(m, m1, a, i);
        InvCanVisit(m1, a);
        var lo, hi := Min(r.pgstart, start), Max(r.pgend, end);
        AbsorbedLeavesNoSubsumer(m, a, ids[i], lo, hi, r.pgstart);
        EarlyReturnChangesNothing(m1, a, 0, lo, hi, acc || r.purged, fresh');
      } else {
        EarlyReturnChangesNothing(m, a, i + 1, start, end, acc, fresh');
      }
    }
  }

  // ---------- When ashmem_unpin returns early ----------

  /** The empty range just above page `end`. */
  predicate EmptyAt(r: Range, end: nat) {
    r.pgstart == end + 1 && r.pgend == end
  }

  ghost predicate NoEmptyAt(m: Mem, a: AreaId, end: nat) {
    forall id :: id in m.ranges && m.ranges[id].asma == a ==> !EmptyAt(m.ranges[id], end)
  }

  /** The ranges visited so far lie above the interval, and not as empty ranges right at its end. */
  ghost predicate ClearOf(m: Mem, a: AreaId, i: nat, end: nat)
    requires CanVisit(m, a, i)
  {
    forall j :: 0 <= j < i ==>
      end < m.ranges[m.areas[a].unpinned[j]].pgstart && !EmptyAt(m.ranges[m.areas[a].unpinned[j]], end)
  }

  lemma NothingAtEnd(m: Mem, a: AreaId, i: nat, start: nat, end: nat)
    requires ListsInv(m) && CanVisit(m, a, i) && start <= end && ClearOf(m, a, i, end)
    requires i < |m.areas[a].unpinned| ==> RangeBeforePage(m.ranges[m.areas[a].unpinned[i]], start)
    ensures NoneSubsumes(m, a, start, end)
  {
    forall id | id in m.ranges && m.ranges[id].asma == a
      ensures !PageRangeSubsumedByRange(m.ranges[id], start, end)
    {
      OwnList(m, id);
      var j :| 0 <= j < |m.areas[a].unpinned| && m.areas[a].unpinned[j] == id;
      if i < j {
        RestIsBefore(m, a, i, start);
      }
    }
  }

  lemma SubsumerLeavesNothingAtEnd(m: Mem, a: AreaId, i: nat, start: nat, end: nat)
    requires ListsInv(m) && CanVisit(m, a, i) && start <= end && ClearOf(m, a, i, end) && i < |m.areas[a].unpinned|
    requires PageRangeSubsumedByRange(m.ranges[m.areas[a].unpinned[i]], start, end)
    ensures NoEmptyAt(m, a, end)
  {
    var ids := m.areas[a].unpinned;
    assert GoodList(m.ranges, a, ids);
    forall id | id in m.ranges && m.ranges[id].asma == a
      ensures !EmptyAt(m.ranges[id], end)
    {
      OwnList(m, id);
      var j :| 0 <= j < |ids| && ids[j] == id;
    }
  }

  /** A touched empty range below a subsuming one would already count as before the interval. */
  lemma TouchedEmptyIsAtEnd(m: Mem, a: AreaId, id: RangeId, start: nat, end: nat)
    requires ListsInv(m) && id in m.ranges && m.ranges[id].asma == a && start <= end
    requires Touches(m.ranges[id], start, end) && m.ranges[id].pgend < m.ranges[id].pgstart
    ensures NoneSubsumes(m, a, start, end) || EmptyAt(m.ranges[id], end)
    ensures Min(m.ranges[id].pgstart, start) == start && Max(m.ranges[id].pgend, end) == end
  {
    OwnList(m, id);
    var ids := m.areas[a].unpinned;
    assert GoodList(m.ranges, a, ids);
    if !NoneSubsumes(m, a, start, end) {
      var k :| k in m.ranges && m.ranges[k].asma == a && PageRangeSubsumedByRange(m.ranges[k], start, end);
      OwnList(m, k);
    }
  }

  /** A touched range with pages shares one with the interval, so nothing else can subsume either. */
  lemma TouchedPagesBlockSubsumers(m: Mem, m1: Mem, a: AreaId, id: RangeId, start: nat, end: nat)
    requires ListsInv(m) && id in m.ranges && m.ranges[id].asma == a && start <= end && m1.ranges == m.ranges - {id}
    requires Touches(m.ranges[id], start, end) && m.ranges[id].pgstart <= m.ranges[id].pgend
    requires !PageRangeSubsumedByRange(m.ranges[id], start, end)
    ensures NoneSubsumes(m, a, start, end)
    ensures NoneSubsumes(m1, a, Min(m.ranges[id].pgstart, start), Max(m.ranges[id].pgend, end))
  {
    hide ListsInv;
    var r := m.ranges[id];
    AbsorbedLeavesNoSubsumer(m, a, id, start, end, Max(r.pgstart, start));
    AbsorbedLeavesNoSubsumer(m, a, id, Min(r.pgstart, start), Max(r.pgend, end), r.pgstart);
  }

  lemma EmptyDeletionIsNeutral(m: Mem, m1: Mem, a: AreaId, id: RangeId, start: nat, end: nat)
    requires id in m.ranges && m.ranges[id].asma == a && start <= end && m1.ranges == m.ranges - {id}
    requires m.ranges[id].pgend < m.ranges[id].pgstart
    ensures NoneSubsumes(m1, a, start, end) <==> NoneSubsumes(m, a, start, end)
  {
    if NoneSubsumes(m1, a, start, end) {
      forall k | k in m.ranges && m.ranges[k].asma == a
        ensures !PageRangeSubsumedByRange(m.ranges[k], start, end)
      {
        assert k != id ==> k in m1.ranges && m1.ranges[k] == m.ranges[k];
      }
    } else {
      var k :| k in m1.ranges && m1.ranges[k].asma == a && PageRangeSubsumedByRange(m1.ranges[k], start, end);
      assert m.ranges[k] == m1.ranges[k];
    }
  }

  lemma {:induction false} EarlyReturnFrom(m: Mem, a: AreaId, i: nat, start: nat, end: nat, acc: bool, fresh': RangeId)
    requires ListsInv(m) && CanVisit(m, a, i) && start <= end && fresh' !in m.ranges && ClearOf(m, a, i, end)
    ensures var m' := UnpinFrom(m, a, i, start, end, acc, fresh');
            && m'.ranges.Keys <= m.ranges.Keys + {fresh'}
            && (fresh' in m'.ranges <==> NoneSubsumes(m, a, start, end))
            && (fresh' !in m'.ranges ==> (m' == m <==> NoEmptyAt(m, a, end)))
    decreases |m.areas[a].unpinned|, |m.areas[a].unpinned| - i
  {
    hide ListsInv, NoneSubsumes, NoEmptyAt, RangeDel;
    var ids := m.areas[a].unpinned;
    if i == |ids| || RangeBeforePage(m.ranges[ids[i]], start) {
      NothingAtEnd(m, a, i, start, end);
    } else {
      var r := m.ranges[ids[i]];
      if PageRangeSubsumedByRange(r, start, end) {
        SubsumerLeavesNothingAtEnd(m, a, i, start, end);
        SubsumerFound(m, a, ids[i], start, end);
      } else if PageRangeInRange(r, start, end) {
        DelShape(m, a, i);
        var m1 := RangeDel(m, ids[i]);
        DelKeepsLists(m, m1, a, i);
        InvCanVisit(m1, a);
        EarlyReturnFrom(m1, a, 0, Min(r.pgstart, start), Max(r.pgend, end), acc || r.purged, fresh');
        if r.pgstart <= r.pgend {
          TouchedPagesBlockSubsumers(m, m1, a, ids[i], start, end);
        } else {
          TouchedEmptyIsAtEnd(m, a, ids[i], start, end);
          EmptyDeletionIsNeutral(m, m1, a, ids[i], start, end);
          EmptyFound(m, a, ids[i], end);
        }
      } else {
        OwnList(m, ids[i]);
        EarlyReturnFrom(m, a, i + 1, start, end, acc, fresh');
      }
    }
  }

  lemma SubsumerFound(m: Mem, a: AreaId, id: RangeId, start: nat, end: nat)
    requires id in m.ranges && m.ranges[id].asma == a && PageRangeSubsumedByRange(m.ranges[id], start, end)
    ensures !NoneSubsumes(m, a, start, end)
  {
  }

  lemma EmptyFound(m: Mem, a: AreaId, id: RangeId, end: nat)
    requires id in m.ranges && m.ranges[id].asma == a
    ensures EmptyAt(m.ranges[id], end) ==> !NoEmptyAt(m, a, end)
  {
  }

  /** Range r holds the whole interval and does not end before it. */
  predicate Holds(r: Range, start: nat, end: nat) {
    PageRangeSubsumedByRange(r, start, end) && !RangeBeforePage(r, start)
  }

  ghost predicate NoneHolds(m: Mem, a: AreaId, start: nat, end: nat) {
    forall id :: id in m.ranges && m.ranges[id].asma == a ==> !Holds(m.ranges[id], start, end)
  }

  /** An empty interval touches a range exactly if the range holds it, so nothing is ever absorbed into it. */
  lemma EmptyTouchesHolder(r: Range, start: nat)
    requires WellFormed(r) && start > 0
    ensures Touches(r, start, start - 1) <==> Holds(r, start, start - 1)
  {
  }

  lemma {:induction false} EmptyIntervalFrom(m: Mem, a: AreaId, i: nat, start: nat, fresh': RangeId)
    requires ListsInv(m) && CanVisit(m, a, i) && start > 0 && fresh' !in m.ranges
    requires forall j :: 0 <= j < i ==> !Holds(m.ranges[m.areas[a].unpinned[j]], start, start - 1)
    ensures var m' := UnpinFrom(m, a, i, start, start - 1, false, fresh');
            (fresh' in m'.ranges <==> NoneHolds(m, a, start, start - 1)) && (fresh' !in m'.ranges ==> m' == m)
    decreases |m.areas[a].unpinned| - i
  {
    hide ListsInv;
    var ids := m.areas[a].unpinned;
    if i == |ids| || RangeBeforePage(m.ranges[ids[i]], start) {
      NobodyHolds(m, a, i, start);
    } else {
      OwnList(m, ids[i]);
      EmptyTouchesHolder(m.ranges[ids[i]], start);
      if !Holds(m.ranges[ids[i]], start, start - 1) {
        EmptyIntervalFrom(m, a, i + 1, start, fresh');
      }
    }
  }

  lemma NobodyHolds(m: Mem, a: AreaId, i: nat, start: nat)
    requires ListsInv(m) && CanVisit(m, a, i) && start > 0
    requires forall j :: 0 <= j < i ==> !Holds(m.ranges[m.areas[a].unpinned[j]], start, start - 1)
    requires i < |m.areas[a].unpinned| ==> RangeBeforePage(m.ranges[m.areas[a].unpinned[i]], start)
    ensures NoneHolds(m, a, start, start - 1)
  {
    forall id | id in m.ranges && m.ranges[id].asma == a
      ensures !Holds(m.ranges[id], start, start - 1)
    {
      OwnList(m, id);
      var j :| 0 <= j < |m.areas[a].unpinned| && m.areas[a].unpinned[j] == id;
      if i < j {
        RestIsBefore(m, a, i, start);
      }
    }
  }

  /**
    ashmem_unpin uses no new range exactly if some range holds the whole interval, and that early
    return leaves the tables untouched exactly if the interval is empty or no empty range sits
    right above it.
   */
  lemma EarlyReturnIff(m: Mem, a: AreaId, start: nat, end: nat, fresh': RangeId)
    requires ListsInv(m) && CanVisit(m, a, 0) && start <= end + 1 && fresh' !in m.ranges
    ensures var m' := UnpinFrom(m, a, 0, start, end, false, fresh');
            && (fresh' in m'.ranges <==> NoneHolds(m, a, start, end))
            && (fresh' !in m'.ranges ==> (m' == m <==> start > end || NoEmptyAt(m, a, end)))
  {
    if start <= end {
      EarlyReturnFrom(m, a, 0, start, end, false, fresh');
    } else {
      EmptyIntervalFrom(m, a, 0, start, fresh');
    }
  }

  /** ashmem_unpin as a whole. */
  function Unpin(m: Mem, a: AreaId, start: nat, end: nat, fresh': RangeId): (m': Mem)
    requires CanVisit(m, a, 0) && start <= end + 1
  {
    UnpinFrom(m, a, 0, start, end, false, fresh')
  }

  lemma UnpinIsUnion(m: Mem, a: AreaId, start: nat, end: nat, fresh': RangeId)
    requires Inv(m) && CanVisit(m, a, 0) && start <= end + 1 && end < WORD && fresh' !in m.ranges
    ensures Inv(Unpin(m, a, start, end, fresh')) && PagesAdded(m, Unpin(m, a, start, end, fresh'), a, start, end)
    ensures Merged(m, Unpin(m, a, start, end, fresh'), a, start, end, false, fresh')
    ensures OnlyRangesOf(m, Unpin(m, a, start, end, fresh'), a)
    ensures NoEmptyRange(m, a) && fresh' !in Unpin(m, a, start, end, fresh').ranges ==>
            Unpin(m, a, start, end, fresh') == m
  {
    UnpinFromIsUnion(m, a, 0, start, end, false, fresh');
    UnpinFromMerges(m, a, 0, start, end, false, fresh');
    if NoEmptyRange(m, a) {
      EarlyReturnChangesNothing(m, a, 0, start, end, false, fresh');
    }
  }

  /** The hull of bounded ranges and a bounded interval is bounded. */
  lemma {:induction false} UnpinFromBounded(m: Mem, a: AreaId, i: nat, start: nat, end: nat, acc: bool, fresh': RangeId,
                                            limit: int, solid: bool)
    requires ListsInv(m) && CanVisit(m, a, i) && start <= end + 1 && fresh' !in m.ranges
    requires Bounded(m, a, limit, solid) && end < limit && (solid ==> start <= end)
    ensures Bounded(UnpinFrom(m, a, i, start, end, acc, fresh'), a, limit, solid)
    decreases |m.areas[a].unpinned|, |m.areas[a].unpinned| - i
  {
    hide ListsInv, RangeDel, NoDup;
    var ids := m.areas[a].unpinned;
    if i < |ids| && !RangeBeforePage(m.ranges[ids[i]], start)
       && !PageRangeSubsumedByRange(m.ranges[ids[i]], start, end) {
      var r := m.ranges[ids[i]];
      if PageRangeInRange(r, start, end) {
        DelShape(m, a, i);
        var m1 := RangeDel(m, ids[i]);
        DelKeepsLists(m, m1, a, i);
        InvCanVisit(m1, a);
        UnpinFromBounded(m1, a, 0, Min(r.pgstart, start), Max(r.pgend, end), acc || r.purged, fresh', limit, solid);
      } else {
        UnpinFromBounded(m, a, i + 1, start, end, acc, fresh', limit, solid);
      }
    }
  }
}
