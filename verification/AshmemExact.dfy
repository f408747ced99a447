/**
  Runs in which no request of effective length zero unpins anything: every range is nonempty and
  inside its area, so pin status and purge reports are exact.
 */
module AshmemExact {
  import opened AshmemRanges
  import opened AshmemPinning
  import opened AshmemUnpinning
  import opened AshmemRequest
  import opened AshmemIoctl
  import opened AshmemProtocol

  /** Every range ends inside its area and, if `solid`, holds at least one page. */
  ghost predicate AllBounded(m: Mem, solid: bool) {
    forall a :: a in m.areas ==> Bounded(m, a, PageAlign(m.areas[a].size) / PAGE_SIZE, solid)
  }

  /**
    A request that keeps ranges in bounds and, if `solid`, nonempty: it is not an unpin of
    effective length zero or, if not `solid`, not the {0, 0} unpin of a multiple of 4 GiB.
   */
  predicate Harmless(size: nat, cmd: Command, offset: nat, len: nat, solid: bool) {
    cmd.UnpinPages? && Decode(size, offset, len).Accepted? ==>
      if solid then EffectiveLength(size, offset, len) > 0 else !(offset == 0 && len == 0 && PageAlign(size) % U32 == 0)
  }

  lemma RequestKeepsBounds(m: Mem, a: AreaId, cmd: Command, offset: nat, len: nat, fresh': RangeId, solid: bool)
    requires MemInv(m) && a in m.areas && offset < U32 && len < U32 && fresh' !in m.ranges
    requires AllBounded(m, solid) && Harmless(m.areas[a].size, cmd, offset, len, solid)
    ensures AllBounded(PinUnpin(m, a, cmd, offset, len, fresh').0, solid)
  {
    hide ListsInv, LruInv, BoundsInv, PinFrom, UnpinFrom, StatusFrom, Decode, PageAlign, OnlyRangesOf, Bounded;
    var size, d := m.areas[a].size, Decode(m.areas[a].size, offset, len);
    var m' := PinUnpin(m, a, cmd, offset, len, fresh').0;
    PinUnpinKeepsMemInv(m, a, cmd, offset, len, fresh');
    if m.areas[a].file.Some? && d.Accepted? && !cmd.GetPinStatus? {
      var limit := PageAlign(size) / PAGE_SIZE;
      AcceptedInBoundsIff(size, offset, len);
      InvCanVisit(m, a);
      if cmd.PinPages? {
        PinFromFrame(m, a, 0, d.pgstart, d.pgend, false, fresh', limit, solid);
      } else {
        HarmlessFits(size, offset, len, solid);
        UnpinFromBounded(m, a, 0, d.pgstart, d.pgend, false, fresh', limit, solid);
      }
      OthersStayBounded(m, m', a, solid);
    }
  }

  lemma HarmlessFits(size: nat, offset: nat, len: nat, solid: bool)
    requires size < WORD && offset < U32 && len < U32 && Decode(size, offset, len).Accepted?
    requires Harmless(size, UnpinPages, offset, len, solid)
    ensures var d := Decode(size, offset, len);
            d.pgend < PageAlign(size) / PAGE_SIZE && (solid ==> d.pgstart <= d.pgend)
  {
    if solid {
      AcceptedNamesItsBytes(size, offset, len);
    } else {
      AcceptedInBoundsIff(size, offset, len);
    }
  }

  /** A change confined to area a leaves all other areas as they were. */
  lemma OthersStayBounded(m: Mem, m': Mem, a: AreaId, solid: bool)
    requires AllBounded(m, solid) && OnlyRangesOf(m, m', a) && a in m.areas
    requires Bounded(m', a, PageAlign(m.areas[a].size) / PAGE_SIZE, solid)
    ensures AllBounded(m', solid)
  {
    hide PageAlign;
    forall b | b in m'.areas
      ensures Bounded(m', b, PageAlign(m'.areas[b].size) / PAGE_SIZE, solid)
    {
      assert Bounded(m, b, PageAlign(m.areas[b].size) / PAGE_SIZE, solid);
    }
  }

  /** Open, set size and mmap change no range, and no size of an area that has ranges. */
  lemma SameRangesStayBounded(m: Mem, m': Mem, solid: bool)
    requires AllBounded(m, solid) && m'.ranges == m.ranges
    requires forall id :: id in m.ranges ==>
      m.ranges[id].asma in m.areas && m.ranges[id].asma in m'.areas
      && m'.areas[m.ranges[id].asma].size == m.areas[m.ranges[id].asma].size
    ensures AllBounded(m', solid)
  {
    hide PageAlign;
    forall b | b in m'.areas
      ensures Bounded(m', b, PageAlign(m'.areas[b].size) / PAGE_SIZE, solid)
    {
      forall id | id in m'.ranges && m'.ranges[id].asma == b
        ensures m'.ranges[id].pgend < PageAlign(m'.areas[b].size) / PAGE_SIZE
        ensures solid ==> m'.ranges[id].pgstart <= m'.ranges[id].pgend
      {
        assert Bounded(m, b, PageAlign(m.areas[b].size) / PAGE_SIZE, solid);
      }
    }
  }

  lemma MarkKeepsBounds(m: Mem, solid: bool)
    requires m.lru != [] && m.lru[0] in m.ranges && AllBounded(m, solid)
    ensures AllBounded(MarkOldest(m), solid)
  {
    hide PageAlign;
  }

  lemma ReleaseKeepsBounds(m: Mem, a: AreaId, solid: bool)
    requires Inv(m) && CanVisit(m, a, 0) && AllBounded(m, solid)
    ensures AllBounded(Release(m, a), solid)
  {
    hide PageAlign, Release, Inv;
    ReleaseForgetsArea(m, a);
    var m' := Release(m, a);
    forall b | b in m'.areas
      ensures Bounded(m', b, PageAlign(m'.areas[b].size) / PAGE_SIZE, solid)
    {
      assert Bounded(m, b, PageAlign(m.areas[b].size) / PAGE_SIZE, solid);
    }
  }

  // ---------- Runs ----------

  /** Serving a request is harmless; every other step is. */
  ghost predicate HarmlessStep(s: Sys, step: Step, solid: bool)
    requires Enabled(s, step)
  {
    step.Serve? ==>
      var th := s.threads[step.t];
      Harmless(s.mem.areas[th.asma].size, th.cmd, th.offset, th.len, solid)
  }

  ghost predicate HarmlessNext(s: Sys, s': Sys, solid: bool) {
    exists step :: Enabled(s, step) && s' == Apply(s, step) && HarmlessStep(s, step, solid)
  }

  ghost predicate HarmlessRun(tr: seq<Sys>, solid: bool) {
    && tr != [] && Init(tr[0])
    && (forall i :: 0 < i < |tr| ==> HarmlessNext(tr[i - 1], tr[i], solid))
  }

  lemma HarmlessRunIsRun(tr: seq<Sys>, solid: bool)
    requires HarmlessRun(tr, solid)
    ensures Run(tr)
  {
    hide Enabled, Apply, HarmlessStep, Init;
    forall i | 0 < i < |tr|
      ensures Next(tr[i - 1], tr[i])
    {
      assert HarmlessNext(tr[i - 1], tr[i], solid);
    }
  }

  lemma StepKeepsBounds(s: Sys, step: Step, solid: bool)
    requires SysInv(s) && Enabled(s, step) && AllBounded(s.mem, solid) && HarmlessStep(s, step, solid)
    ensures AllBounded(Apply(s, step).mem, solid)
  {
    hide AllBounded, ListsInv, LruInv, BoundsInv, LockInv, CountInv, HolesInv, LostInv, PinUnpin, Release, Harmless,
         PageAlign;
    var s' := Apply(s, step);
    if step.Serve? {
      var th := s.threads[step.t];
      RequestKeepsBounds(s.mem, th.asma, th.cmd, th.offset, th.len, step.fresh', solid);
    } else if step.ScanMark? {
      MarkKeepsBounds(s.mem, solid);
    } else if step.ReleaseArea? {
      ReleaseKeepsBounds(s.mem, step.a, solid);
    } else if step.OpenArea? || step.SetAreaSize? || step.MapArea? {
      SameRangesStayBounded(s.mem, s'.mem, solid);
    }
  }

  /**
    In every run without harmful unpins every range lies inside its area, whatever the area's
    size, and if no unpin has effective length zero every range is nonempty.
   */
  lemma {:induction false} RunKeepsBounds(tr: seq<Sys>, i: nat, solid: bool)
    requires HarmlessRun(tr, solid) && i < |tr|
    ensures AllBounded(tr[i].mem, solid)
  {
    hide SysInv, Apply, Enabled, HarmlessStep, AllBounded;
    if i == 0 {
      NothingUnbounded(tr[0], solid);
    } else {
      RunKeepsBounds(tr, i - 1, solid);
      HarmlessRunIsRun(tr, solid);
      RunKeepsInv(tr, i - 1);
      assert HarmlessNext(tr[i - 1], tr[i], solid);
      var step :| Enabled(tr[i - 1], step) && tr[i] == Apply(tr[i - 1], step) && HarmlessStep(tr[i - 1], step, solid);
      StepKeepsBounds(tr[i - 1], step, solid);
    }
  }

  lemma NothingUnbounded(s: Sys, solid: bool)
    requires Init(s)
    ensures AllBounded(s.mem, solid)
  {
  }

  lemma SolidIsNonempty(m: Mem, a: AreaId)
    requires AllBounded(m, true) && a in m.areas
    ensures NoEmptyRange(m, a)
  {
    assert Bounded(m, a, PageAlign(m.areas[a].size) / PAGE_SIZE, true);
  }

  /**
    In every run whose unpins all have nonzero effective length, every accepted request is answered
    exactly: the status is UNPINNED if and only if the interval holds an unpinned page, and a pin
    reports WAS_PURGED if and only if it holds a purged one.  An empty interval is judged by the
    page it stands before.
   */
  lemma AnswersAreExact(tr: seq<Sys>, i: nat, t: Tid, fresh': RangeId)
    requires HarmlessRun(tr, true) && i < |tr| && Enabled(tr[i], Serve(t, fresh'))
    requires var th := tr[i].threads[t];
             var area := tr[i].mem.areas[th.asma];
             area.file.Some? && Decode(area.size, th.offset, th.len).Accepted?
    ensures var s, th := tr[i], tr[i].threads[t];
            var d := Decode(s.mem.areas[th.asma].size, th.offset, th.len);
            var last := Max(d.pgstart, d.pgend);
            && (th.cmd.GetPinStatus? ==>
                  (Served(s, t, fresh').1 == StatusReply(true) <==> PageMet(s.mem, th.asma, d.pgstart, last, false)))
            && (th.cmd.PinPages? ==>
                  (Served(s, t, fresh').1 == PinReply(true) <==> PageMet(s.mem, th.asma, d.pgstart, last, true)))
  {
    hide SysInv, AllBounded, ListsInv, LruInv, PinFrom, StatusFrom, PageMet, NoEmptyRange, EmptyRangeInside, Decode;
    RunKeepsBounds(tr, i, true);
    var s, th := tr[i], tr[i].threads[t];
    var area := s.mem.areas[th.asma];
    var d := Decode(area.size, th.offset, th.len);
    SolidIsNonempty(s.mem, th.asma);
    InvCanVisit(s.mem, th.asma);
    AcceptedInBoundsIff(area.size, th.offset, th.len);
    if th.cmd.GetPinStatus? {
      StatusIsOverlap(s.mem, th.asma, d.pgstart, d.pgend);
    } else if th.cmd.PinPages? {
      PinReportsPurge(s.mem, th.asma, d.pgstart, d.pgend, fresh');
    }
  }

  /**
    The request names an interval with pages, or an empty one at the end of the area.  What is
    left are requests of effective length zero inside an area of 4 GiB or more.
   */
  predicate Conclusive(size: nat, offset: nat, len: nat) {
    EffectiveLength(size, offset, len) > 0 || offset == 0 || PageAlign(size) < U32
  }

  /** How the page that the loops look at relates to the pages of the interval. */
  lemma JudgedPages(m: Mem, a: AreaId, offset: nat, len: nat, flagged: bool)
    requires AllBounded(m, true) && a in m.areas && m.areas[a].size < WORD && offset < U32 && len < U32
    requires Decode(m.areas[a].size, offset, len).Accepted?
    ensures var size, d := m.areas[a].size, Decode(m.areas[a].size, offset, len);
            PageMet(m, a, d.pgstart, Max(d.pgstart, d.pgend), flagged) == PageMet(m, a, d.pgstart, d.pgend, flagged)
            <==> Conclusive(size, offset, len) || !PageMet(m, a, d.pgstart, d.pgstart, flagged)
  {
    hide PageAlign, Decode, HeldAs;
    var size, d := m.areas[a].size, Decode(m.areas[a].size, offset, len);
    if EffectiveLength(size, offset, len) > 0 {
      AcceptedNamesItsBytes(size, offset, len);
    } else {
      ZeroLengthInterval(size, offset, len);
      if offset > 0 && PageAlign(size) < U32 {
        NothingBeyond(m, a, d.pgstart);
      }
    }
  }

  lemma NothingBeyond(m: Mem, a: AreaId, p: nat)
    requires AllBounded(m, true) && a in m.areas && p >= PageAlign(m.areas[a].size) / PAGE_SIZE
    ensures !HeldAs(m, a, p, true) && !HeldAs(m, a, p, false)
  {
    hide PageAlign;
    assert Bounded(m, a, PageAlign(m.areas[a].size) / PAGE_SIZE, true);
  }

  /**
    In every run whose unpins all have nonzero effective length, the answer to an accepted request
    is exact for its own interval if and only if the request is conclusive or the page right after
    its empty interval would not change the answer.
   */
  lemma AnswersAreExactIff(tr: seq<Sys>, i: nat, t: Tid, fresh': RangeId)
    requires HarmlessRun(tr, true) && i < |tr| && Enabled(tr[i], Serve(t, fresh'))
    requires var th := tr[i].threads[t];
             var area := tr[i].mem.areas[th.asma];
             area.file.Some? && Decode(area.size, th.offset, th.len).Accepted?
    ensures var s, th := tr[i], tr[i].threads[t];
            var size := s.mem.areas[th.asma].size;
            var d := Decode(size, th.offset, th.len);
            && (th.cmd.GetPinStatus? ==>
                  (Served(s, t, fresh').1 == StatusReply(PageMet(s.mem, th.asma, d.pgstart, d.pgend, false)) <==>
                   Conclusive(size, th.offset, th.len) || !PageMet(s.mem, th.asma, d.pgstart, d.pgstart, false)))
            && (th.cmd.PinPages? ==>
                  (Served(s, t, fresh').1 == PinReply(PageMet(s.mem, th.asma, d.pgstart, d.pgend, true)) <==>
                   Conclusive(size, th.offset, th.len) || !PageMet(s.mem, th.asma, d.pgstart, d.pgstart, true)))
  {
    hide AllBounded, ListsInv, LruInv, PinFrom, StatusFrom, PageMet, Decode, Conclusive;
    RunKeepsBounds(tr, i, true);
    AnswersAreExact(tr, i, t, fresh');
    var s, th := tr[i], tr[i].threads[t];
    JudgedPages(s.mem, th.asma, th.offset, th.len, false);
    JudgedPages(s.mem, th.asma, th.offset, th.len, true);
  }
}
