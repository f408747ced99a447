/** Runs of the ashmem driver that show where it misses what its comments promise. */
module AshmemExamples {
  import opened AshmemRanges
  import opened AshmemPinning
  import opened AshmemUnpinning
  import opened AshmemRequest
  import opened AshmemIoctl
  import opened AshmemShrinking
  import opened AshmemProtocol
  import opened AshmemExact
  import opened AshmemLruOrder

  /** A run with one thread, between requests. */
  ghost predicate Resting(tr: seq<Sys>) {
    Run(tr) && tr != [] && var s := tr[|tr| - 1]; s.threads == map[0 := Idle] && s.mutex.None? && s.inflight == 0
  }

  ghost function Now(tr: seq<Sys>): Mem
    requires tr != []
  {
    tr[|tr| - 1].mem
  }

  lemma Extend(tr: seq<Sys>, step: Step) returns (tr': seq<Sys>)
    requires Run(tr) && Enabled(tr[|tr| - 1], step)
    ensures Run(tr') && tr' == tr + [Apply(tr[|tr| - 1], step)]
    ensures HarmlessRun(tr, true) && HarmlessStep(tr[|tr| - 1], step, true) ==> HarmlessRun(tr', true)
  {
    hide Enabled, Apply, Init, HarmlessStep;
    tr' := tr + [Apply(tr[|tr| - 1], step)];
    if HarmlessRun(tr, true) && HarmlessStep(tr[|tr| - 1], step, true) {
      assert HarmlessNext(tr[|tr| - 1], tr'[|tr|], true);
      forall i | 0 < i < |tr'|
        ensures HarmlessNext(tr'[i - 1], tr'[i], true)
      {
        assert i < |tr| ==> HarmlessNext(tr[i - 1], tr[i], true);
      }
    }
    assert Next(tr[|tr| - 1], tr'[|tr|]);
    forall i | 0 < i < |tr'|
      ensures Next(tr'[i - 1], tr'[i])
    {
      assert i < |tr| ==> Next(tr[i - 1], tr[i]);
    }
  }

  /** An area of the given size with its backing file and nothing unpinned. */
  function Fresh(size: nat): Mem {
    Mem(map[0 := Area(size, Some(0), [])], map[], [], 0)
  }

  /** Open, set the size, map one page. */
  lemma MappedArea(size: nat) returns (tr: seq<Sys>)
    requires 0 < size < WORD - PAGE_SIZE
    ensures Resting(tr) && Now(tr) == Fresh(size) && HarmlessRun(tr, true)
  {
    hide CanVisit, Decode, PageAlign, Run, HarmlessRun;
    tr := [Sys(Mem(map[], map[], [], 0), None, 0, map[0 := Idle], iset{}, {})];
    StartsEmpty(tr);
    tr := Extend(tr, OpenArea(0));
    tr := Extend(tr, SetAreaSize(0, size));
    var s := tr[|tr| - 1];
    assert s.mem == Mem(map[0 := Area(size, None, [])], map[], [], 0) && s.files == {};
    assert PageAlign(size) >= size;
    tr := Extend(tr, MapArea(0, 1, true, Some(0)));
  }

  lemma StartsEmpty(tr: seq<Sys>)
    requires tr == [Sys(Mem(map[], map[], [], 0), None, 0, map[0 := Idle], iset{}, {})]
    ensures Run(tr) && HarmlessRun(tr, true)
  {
  }

  /** One request, asked and served. */
  lemma Serviced(tr: seq<Sys>, a: AreaId, cmd: Command, offset: nat, len: nat, id: RangeId) returns (tr': seq<Sys>)
    requires Resting(tr) && a in Now(tr).areas && offset < U32 && len < U32 && id !in Now(tr).ranges
    ensures MemInv(Now(tr)) && Resting(tr') && Now(tr') == PinUnpin(Now(tr), a, cmd, offset, len, id).0
    ensures HarmlessRun(tr, true) && Harmless(Now(tr).areas[a].size, cmd, offset, len, true) ==> HarmlessRun(tr', true)
  {
    hide SysInv, MemInv, PinUnpin, Init, Next, HarmlessRun, Harmless;
    RunKeepsInv(tr, |tr| - 1);
    RunTables(tr[|tr| - 1]);
    var tr1 := Extend(tr, Ask(0, a, cmd, offset, len));
    RunKeepsInv(tr1, |tr|);
    RunTables(tr1[|tr|]);
    StepsNeverStick(tr1, |tr|, 0, id);
    tr' := Extend(tr1, Serve(0, id));
  }

  lemma RunTables(s: Sys)
    requires SysInv(s)
    ensures MemInv(s.mem)
  {
  }

  /** One scan that purges the oldest range and then stops. */
  lemma Scanned(tr: seq<Sys>) returns (tr': seq<Sys>)
    requires Resting(tr) && Now(tr).lru != []
    ensures Now(tr).lru[0] in Now(tr).ranges && Resting(tr') && Now(tr') == MarkOldest(Now(tr))
    ensures HarmlessRun(tr, true) ==> HarmlessRun(tr', true)
  {
    hide Run, SysInv, HarmlessRun, MarkOldest, Inv;
    var tr1 := Extend(tr, ScanStart(0, 1));
    StepsNeverStick(tr1, |tr|, 0, FreshId(tr1[|tr|].mem.ranges.Keys));
    var tr2 := Extend(tr1, ScanMark(0));
    tr' := Finished(tr2);
  }

  /** The thread that has marked a range punches it, lowers the count and is done. */
  lemma Finished(tr: seq<Sys>) returns (tr': seq<Sys>)
    requires Run(tr) && tr != []
    requires var s := tr[|tr| - 1];
             0 in s.threads && s.threads[0].Marked? && s.threads[0].nr == 1 && s.threads == map[0 := s.threads[0]]
             && s.inflight == 1
    ensures Resting(tr') && Now(tr') == Now(tr) && (HarmlessRun(tr, true) ==> HarmlessRun(tr', true))
  {
    hide Run, HarmlessRun, Inv;
    tr' := Extend(tr, ScanUnlock(0));
    tr' := Extend(tr', ScanPunch(0, iset{}));
    tr' := Extend(tr', ScanLower(0));
    tr' := Extend(tr', ScanRetry(0));
  }

  // ---------- Pages or ranges ----------

  /** Pages 0 and 1, and then page 3, of a four-page area unpinned. */
  function TwoThenOne(): Mem {
    Mem(map[0 := Area(16384, Some(0), [2, 1])], map[1 := Range(0, 0, 1, false), 2 := Range(0, 3, 3, false)], [1, 2], 3)
  }

  function TwoPages(): Mem {
    Mem(map[0 := Area(16384, Some(0), [1])], map[1 := Range(0, 0, 1, false)], [1], 2)
  }

  /** A scan for two objects goes on to a second range although the first had the two pages. */
  lemma ScanExample() returns (tr: seq<Sys>)
    ensures Run(tr) && Now(tr) == TwoThenOne() && Inv(TwoThenOne())
    ensures Scan(TwoThenOne(), 2, 0) != PageScan(TwoThenOne(), 2, 0)
  {
    hide Run, Inv, Scan, PageScan, HarmlessRun, Harmless;
    tr := MappedArea(16384);
    tr := Serviced(tr, 0, UnpinPages, 0, 8192, 1);
    UnpinsTwoPages();
    tr := Serviced(tr, 0, UnpinPages, 12288, 4096, 2);
    UnpinsOneMore();
    InvOfRun(tr);
    ScansDiffer();
  }

  lemma ScansDiffer()
    requires Inv(TwoThenOne())
    ensures Scan(TwoThenOne(), 2, 0) != PageScan(TwoThenOne(), 2, 0)
  {
    hide Scan, PageScan, Inv;
    var m := TwoThenOne();
    assert m.lru[..2] == [1, 2] && [1, 2][1..] == [2] && [2][1..] == [];
    assert Pages(m.ranges, [1, 2]) == 2 + Pages(m.ranges, [2]) == 3 + Pages(m.ranges, []);
    ScanCountsSinglesIff(m, 2);
    assert !OnePage(m.ranges[m.lru[0]]);
  }

  lemma InvOfRun(tr: seq<Sys>)
    requires Run(tr)
    ensures Inv(Now(tr))
  {
    hide Inv;
    RunKeepsInv(tr, |tr| - 1);
  }

  lemma FourPageRequests()
    ensures Decode(16384, 0, 8192) == Accepted(0, 1) && Decode(16384, 12288, 4096) == Accepted(3, 3)
  {
  }

  lemma UnpinsTwoPages()
    requires MemInv(Fresh(16384))
    ensures PinUnpin(Fresh(16384), 0, UnpinPages, 0, 8192, 1).0 == TwoPages()
  {
    hide Decode, MemInv;
    FourPageRequests();
    AllocInEmpty(Fresh(16384), 0, 1, 1);
  }

  lemma UnpinsOneMore()
    requires MemInv(TwoPages())
    ensures PinUnpin(TwoPages(), 0, UnpinPages, 12288, 4096, 2).0 == TwoThenOne()
  {
    hide Decode, MemInv;
    FourPageRequests();
    var m := TwoPages();
    assert m.areas[0].unpinned == [1] && RangeBeforePage(m.ranges[1], 3);
    assert [1][..0] + [2] + [1][0..] == [2, 1];
  }

  lemma AllocInEmpty(m: Mem, start: nat, end: nat, id: RangeId)
    requires 0 in m.areas && m.areas[0].unpinned == [] && CanVisit(m, 0, 0) && start <= end + 1
    ensures UnpinFrom(m, 0, 0, start, end, false, id) == RangeAlloc(m, 0, 0, false, start, end, id)
    ensures RangeAlloc(m, 0, 0, false, start, end, id).areas == m.areas[0 := m.areas[0].(unpinned := [id])]
  {
    assert m.areas[0].unpinned[..0] + [id] + m.areas[0].unpinned[0..] == [id];
  }

  // ---------- Empty ranges ----------

  /** Page 0 and, right above it, an empty range. */
  function EmptyAbovePageZero(): Mem {
    Mem(map[0 := Area(4096, Some(0), [1, 2])], map[1 := Range(0, 1, 0, false), 2 := Range(0, 0, 0, false)], [2, 1], 1)
  }

  function PageZero(): Mem {
    Mem(map[0 := Area(4096, Some(0), [2])], map[2 := Range(0, 0, 0, false)], [2], 1)
  }

  /**
    Unpin the one page of an area, then "everything" from its end, then the page again: the last
    request uses no new range but deletes the empty one before it returns.
   */
  lemma EarlyReturnExample() returns (tr: seq<Sys>)
    ensures Run(tr) && Now(tr) == EmptyAbovePageZero() && CanVisit(Now(tr), 0, 0)
    ensures var m' := UnpinFrom(EmptyAbovePageZero(), 0, 0, 0, 0, false, 3);
            3 !in m'.ranges && m' != EmptyAbovePageZero()
  {
    hide Run, Inv, UnpinFrom, NoneHolds, NoEmptyAt;
    tr := MappedArea(4096);
    tr := Serviced(tr, 0, UnpinPages, 0, 0, 2);
    UnpinsPageZero();
    tr := Serviced(tr, 0, UnpinPages, 4096, 0, 1);
    UnpinsNothingAbove();
    InvOfRun(tr);
    var m := EmptyAbovePageZero();
    ListsOfInv(m);
    InvCanVisit(m, 0);
    PageZeroIsHeld();
    EarlyReturnIff(m, 0, 0, 0, 3);
  }

  lemma ListsOfInv(m: Mem)
    requires Inv(m)
    ensures ListsInv(m)
  {
  }

  lemma PageZeroIsHeld()
    ensures !NoneHolds(EmptyAbovePageZero(), 0, 0, 0) && !NoEmptyAt(EmptyAbovePageZero(), 0, 0)
  {
    var m := EmptyAbovePageZero();
    assert Holds(m.ranges[2], 0, 0) && EmptyAt(m.ranges[1], 0);
  }

  lemma OnePageRequests()
    ensures Decode(4096, 0, 0) == Accepted(0, 0) && Decode(4096, 4096, 0) == Accepted(1, 0)
  {
  }

  lemma UnpinsPageZero()
    requires MemInv(Fresh(4096))
    ensures PinUnpin(Fresh(4096), 0, UnpinPages, 0, 0, 2).0 == PageZero()
  {
    hide Decode, MemInv;
    OnePageRequests();
    AllocInEmpty(Fresh(4096), 0, 0, 2);
  }

  lemma UnpinsNothingAbove()
    requires MemInv(PageZero())
    ensures PinUnpin(PageZero(), 0, UnpinPages, 4096, 0, 1).0 == EmptyAbovePageZero()
  {
    hide Decode, MemInv;
    OnePageRequests();
    var m := PageZero();
    assert m.areas[0].unpinned == [2] && RangeBeforePage(m.ranges[2], 1);
    assert [2][..0] + [1] + [2][0..] == [1, 2];
  }

  /** A zero-length unpin at the end of a two-page area: the status reads UNPINNED though every page is pinned. */
  lemma FooledStatusExample() returns (tr: seq<Sys>)
    ensures Resting(tr) && MemInv(Now(tr)) && 0 in Now(tr).areas && Now(tr).areas[0].size < WORD && 2 !in Now(tr).ranges
    ensures forall p: nat :: !Unpinned(Now(tr), 0, p)
    ensures PinUnpin(Now(tr), 0, GetPinStatus, 0, 0, 2).1 == StatusReply(true)
  {
    hide Run, Inv, PinUnpin;
    var tr0 := MappedArea(8192);
    tr := Serviced(tr0, 0, UnpinPages, 8192, 0, 1);
    EmptyRangeFoolsStatus(Now(tr0), 0, 1, 2);
    PinUnpinKeepsMemInv(Now(tr0), 0, UnpinPages, 8192, 0, 1);
  }

  // ---------- Requests inside large areas ----------

  const LARGE := 0x1_0000_2000

  /** Page 2 of an area of 4 GiB and two pages, unpinned and then purged. */
  function PageTwo(purged: bool): Mem {
    Mem(map[0 := Area(LARGE, Some(0), [1])], map[1 := Range(0, 2, 2, purged)], if purged then []
      else [1], if purged then 0 else 1)
  }

  lemma LargeRequests()
    ensures Decode(LARGE, 0x2000, 0x1000) == Accepted(2, 2) && EffectiveLength(LARGE, 0x2000, 0x1000) > 0
    ensures Decode(LARGE, 0x2000, 0) == Accepted(2, 1) && !Conclusive(LARGE, 0x2000, 0)
  {
  }

  /**
    No zero-length unpin is ever made, yet "everything" from page 2 on, which is cut to the empty
    interval before page 2, reads UNPINNED, and pinning it reports WAS_PURGED and pins nothing.
   */
  lemma InconclusiveExample() returns (tr: seq<Sys>)
    ensures Resting(tr) && HarmlessRun(tr, true) && Now(tr) == PageTwo(true) && MemInv(Now(tr))
    ensures PinUnpin(PageTwo(true), 0, GetPinStatus, 0x2000, 0, 2).1 == StatusReply(true)
    ensures PinUnpin(PageTwo(true), 0, PinPages, 0x2000, 0, 2) == (PageTwo(true), PinReply(true))
  {
    hide Run, Inv, HarmlessRun, Decode;
    LargeRequests();
    tr := MappedArea(LARGE);
    tr := Serviced(tr, 0, UnpinPages, 0x2000, 0x1000, 1);
    UnpinsPageTwo();
    tr := Scanned(tr);
    PurgesPageTwo();
    RunKeepsInv(tr, |tr| - 1);
    RunTables(tr[|tr| - 1]);
    JudgesPageTwo();
  }

  lemma UnpinsPageTwo()
    requires MemInv(Fresh(LARGE))
    ensures PinUnpin(Fresh(LARGE), 0, UnpinPages, 0x2000, 0x1000, 1).0 == PageTwo(false)
  {
    hide Decode, MemInv;
    LargeRequests();
    AllocInEmpty(Fresh(LARGE), 2, 2, 1);
  }

  lemma PurgesPageTwo()
    ensures MarkOldest(PageTwo(false)) == PageTwo(true)
  {
    assert Without([1], 1) == [];
  }

  lemma JudgesPageTwo()
    requires MemInv(PageTwo(true))
    ensures PinUnpin(PageTwo(true), 0, GetPinStatus, 0x2000, 0, 2).1 == StatusReply(true)
    ensures PinUnpin(PageTwo(true), 0, PinPages, 0x2000, 0, 2) == (PageTwo(true), PinReply(true))
  {
    hide Decode, MemInv;
    LargeRequests();
    var m := PageTwo(true);
    assert m.areas[0].unpinned == [1] && PageInRange(m.ranges[1], 2);
    assert RangeShrink(m, 1, 2, 2) == m;
    assert PinVisit(m, 0, 0, 2, 1, false, 2) == Visit(m, true, 1, false);
  }
}
