/**
  The operations that run under ashmem_mutex as a whole: open, set size, mmap, the pin
  requests, release, and the shrinker's marking of the oldest range.
 */
module AshmemIoctl {
  import opened AshmemRanges
  import opened AshmemPinning
  import opened AshmemUnpinning
  import opened AshmemRequest

  datatype Command = PinPages | UnpinPages | GetPinStatus

  datatype Reply = Invalid | PinReply(wasPurged: bool) | UnpinReply | StatusReply(unpinned: bool)

  function Open(m: Mem, a: AreaId): Mem {
    m.(areas := m.areas[a := Area(0, None, [])])
  }

  /** ASHMEM_SET_SIZE: refused once the backing file exists. */
  function SetSize(m: Mem, a: AreaId, size: nat): (Mem, bool)
    requires a in m.areas
  {
    if m.areas[a].file.None? then (m.(areas := m.areas[a := m.areas[a].(size := size % WORD)]), true) else (m, false)
  }

  /**
    ashmem_mmap for a mapping of `length` bytes.  `allowed` is the protection-bit test and
    `setup` the outcome of shmem_file_setup.
   */
  function Mmap(m: Mem, a: AreaId, length: nat, allowed: bool, setup: Option<FileId>): (Mem, bool)
    requires a in m.areas
  {
    var area := m.areas[a];
    if area.size == 0 then (m, false)
    else if length > PageAlign(area.size) then (m, false)
    else if !allowed then (m, false)
    else if area.file.Some? then (m, true)
    else if setup.None? then (m, false)
    else (m.(areas := m.areas[a := area.(file := setup)]), true)
  }

  /** ashmem_pin_unpin between taking and dropping the mutex. */
  function PinUnpin(m: Mem, a: AreaId, cmd: Command, offset: nat, len: nat, fresh': RangeId): (Mem, Reply)
    requires Inv(m) && a in m.areas && m.areas[a].size < WORD && offset < U32 && len < U32 && fresh' !in m.ranges
  {
    if m.areas[a].file.None? then (m, Invalid) else
      match Decode(m.areas[a].size, offset, len)
      case Rejected => (m, Invalid)
      case Accepted(pgstart, pgend) =>
        InvCanVisit(m, a);
        AcceptedInBoundsIff(m.areas[a].size, offset, len);
        match cmd
        case PinPages => var (m', purged) := Pin(m, a, pgstart, pgend, fresh'); (m', PinReply(purged))
        case UnpinPages => (Unpin(m, a, pgstart, pgend, fresh'), UnpinReply)
        case GetPinStatus => (m, StatusReply(StatusFrom(m, a, 0, pgstart, pgend)))
  }

  /** The loop of ashmem_release. */
  function DropRanges(m: Mem, a: AreaId): Mem
    requires CanVisit(m, a, 0)
    decreases |m.areas[a].unpinned|
  {
    if m.areas[a].unpinned == [] then m else
      DelCanVisit(m, a, 0);
      DropRanges(RangeDel(m, m.areas[a].unpinned[0]), a)
  }

  function Release(m: Mem, a: AreaId): Mem
    requires CanVisit(m, a, 0)
  {
    var m1 := DropRanges(m, a);
    m1.(areas := m1.areas - {a})
  }

  /** The shrinker's marking of the range at the head of the LRU list. */
  function MarkOldest(m: Mem): Mem
    requires m.lru != [] && m.lru[0] in m.ranges
  {
    var id := m.lru[0];
    LruDel(m.(ranges := m.ranges[id := m.ranges[id].(purged := true)]), id)
  }

  // ---------- Invariant over areas and files ----------

  /** Two open areas never share a backing file. */
  ghost predicate FilesDistinct(m: Mem) {
    forall a, b :: a in m.areas && b in m.areas && a != b && m.areas[a].file.Some? ==>
      m.areas[a].file != m.areas[b].file
  }

  /** Ranges exist only in areas with a backing file; a backing file means a nonzero aligned size. */
  ghost predicate FilesInv(m: Mem) {
    && FilesDistinct(m)
    && (forall a :: a in m.areas ==> m.areas[a].size < WORD)
    && (forall a :: a in m.areas && m.areas[a].file.Some? ==> PageAlign(m.areas[a].size) > 0)
    && (forall id :: id in m.ranges ==> m.ranges[id].asma in m.areas && m.areas[m.ranges[id].asma].file.Some?)
  }

  /** Ranges lie inside their area, for every area whose aligned size is not a multiple of 4 GiB. */
  ghost predicate BoundsInv(m: Mem) {
    forall a :: a in m.areas && PageAlign(m.areas[a].size) % U32 != 0 ==>
      Bounded(m, a, PageAlign(m.areas[a].size) / PAGE_SIZE, false)
  }

  ghost predicate MemInv(m: Mem) {
    Inv(m) && FilesInv(m) && BoundsInv(m)
  }

  // ---------- Marking ----------

  lemma MarkKeepsLists(m: Mem, m': Mem, id: RangeId)
    requires ListsInv(m) && id in m.ranges
    requires m'.areas == m.areas && m'.ranges == m.ranges[id := m.ranges[id].(purged := true)]
    ensures ListsInv(m')
  {
    forall b | b in m'.areas
      ensures GoodList(m'.ranges, b, m'.areas[b].unpinned)
    {
      AreaList(m, b);
      MarkKeepsGoodList(m.ranges, b, m.areas[b].unpinned, id);
    }
    hide GoodList;
    forall k | k in m'.ranges
      ensures Listed(m', k)
    {
      assert Listed(m, k);
    }
  }

  lemma MarkKeepsGoodList(R: map<RangeId, Range>, a: AreaId, ids: seq<RangeId>, id: RangeId)
    requires GoodList(R, a, ids) && id in R
    ensures GoodList(R[id := R[id].(purged := true)], a, ids)
  {
  }

  lemma LruAfterMark(R: map<RangeId, Range>, lru: seq<RangeId>)
    requires OnLruIffNotPurged(R, lru) && lru != []
    ensures var R' := R[lru[0] := R[lru[0]].(purged := true)];
            && Without(lru, lru[0]) == lru[1..] && OnLruIffNotPurged(R', lru[1..])
            && Pages(R', lru[1..]) % WORD == (Pages(R, lru) % WORD - RangeSize(R[lru[0]])) % WORD
  {
    var R' := R[lru[0] := R[lru[0]].(purged := true)];
    PagesFrame(R, R', lru[1..]);
    WrapSub(Pages(R, lru), R[lru[0]].pgend - R[lru[0]].pgstart + 1);
    forall id
      ensures id in lru[1..] <==> id in R' && !R'[id].purged
    {
      assert id in lru <==> id == lru[0] || id in lru[1..];
    }
  }

  lemma MarkOldestKeepsInv(m: Mem)
    requires Inv(m) && m.lru != []
    ensures m.lru[0] in m.ranges && Inv(MarkOldest(m)) && MarkOldest(m).lru == m.lru[1..]
  {
    MarkOldestKeepsLru(m);
    hide ListsInv, LruInv;
    MarkKeepsLists(m, MarkOldest(m), m.lru[0]);
  }

  lemma MarkOldestKeepsLru(m: Mem)
    requires LruInv(m) && m.lru != []
    ensures m.lru[0] in m.ranges && LruInv(MarkOldest(m)) && MarkOldest(m).lru == m.lru[1..]
  {
    LruAfterMark(m.ranges, m.lru);
    hide OnLruIffNotPurged, Pages, Without;
    assert MarkOldest(m).lruCount == (m.lruCount - RangeSize(m.ranges[m.lru[0]])) % WORD;
  }

  /** Marking makes the pages of the oldest range purged and changes no other page. */
  lemma MarkOldestPurges(m: Mem)
    requires OnLruIffNotPurged(m.ranges, m.lru) && m.lru != []
    ensures OnlyRangesOf(m, MarkOldest(m), m.ranges[m.lru[0]].asma)
    ensures forall b: AreaId, p: nat :: HeldAs(MarkOldest(m), b, p, true) <==>
      (HeldAs(m, b, p, true) || (b == m.ranges[m.lru[0]].asma && PageInRange(m.ranges[m.lru[0]], p)))
    ensures forall b: AreaId, p: nat :: Unpinned(MarkOldest(m), b, p) <==> Unpinned(m, b, p)
  {
    var id := m.lru[0];
    var r, m' := m.ranges[id], MarkOldest(m);
    forall b: AreaId, p: nat
      ensures HeldAs(m', b, p, true) <==> (HeldAs(m, b, p, true) || (b == r.asma && PageInRange(r, p)))
      ensures HeldAs(m', b, p, false) ==> HeldAs(m, b, p, false)
      ensures HeldAs(m, b, p, false) ==> HeldAs(m', b, p, false) || (b == r.asma && PageInRange(r, p))
      ensures b == r.asma && PageInRange(r, p) ==> HeldAs(m, b, p, false)
    {
      assert m'.ranges[id] == r.(purged := true);
      forall k | k in m.ranges && k != id
        ensures k in m'.ranges && m'.ranges[k] == m.ranges[k]
      {
      }
    }
  }

  // ---------- Release ----------

  lemma {:induction false} DropRangesDropsAll(m: Mem, a: AreaId)
    requires Inv(m) && CanVisit(m, a, 0)
    ensures Inv(DropRanges(m, a)) && OnlyRangesOf(m, DropRanges(m, a), a)
    ensures DropRanges(m, a).areas[a].unpinned == []
    decreases |m.areas[a].unpinned|
  {
    FrameSame(m, a);
    if m.areas[a].unpinned != [] {
      var id := m.areas[a].unpinned[0];
      DelShape(m, a, 0);
      DelKeepsInv(m, a, 0);
      DelFrame(m, id);
      hide ListsInv, LruInv, OnlyRangesOf;
      var m1 := RangeDel(m, id);
      InvCanVisit(m1, a);
      DropRangesDropsAll(m1, a);
      FrameThenFrame(m, m1, DropRanges(m1, a), a);
    }
  }

  /** Area a, its ranges and their LRU entries are gone, everything else is as it was. */
  ghost predicate Forgets(m: Mem, m': Mem, a: AreaId) {
    && m'.areas.Keys == m.areas.Keys - {a}
    && (forall id :: id in m'.ranges <==> id in m.ranges && m.ranges[id].asma != a)
    && (forall id :: id in m'.ranges ==> m'.ranges[id] == m.ranges[id])
    && (forall id :: id in m'.lru ==> id in m.ranges && m.ranges[id].asma != a)
    && (forall b :: b in m.areas && b != a ==> m'.areas[b] == m.areas[b])
  }

  /** After release the tables hold no trace of the area, and all other areas are as before. */
  lemma ReleaseForgetsArea(m: Mem, a: AreaId)
    requires Inv(m) && CanVisit(m, a, 0)
    ensures Inv(Release(m, a)) && Forgets(m, Release(m, a), a)
  {
    hide GoodList, DropRanges, Pages, NoDup;
    DropRangesDropsAll(m, a);
    var m1 := DropRanges(m, a);
    NoRangeLeft(m1, a);
    ClosedArea(m1, a);
  }

  lemma NoRangeLeft(m: Mem, a: AreaId)
    requires ListsInv(m) && a in m.areas && m.areas[a].unpinned == []
    ensures forall id :: id in m.ranges ==> m.ranges[id].asma != a
  {
    forall id | id in m.ranges
      ensures m.ranges[id].asma != a
    {
      OwnListed(m, id);
    }
  }

  /** An area without ranges can go. */
  lemma ClosedArea(m: Mem, a: AreaId)
    requires Inv(m) && a in m.areas && forall id :: id in m.ranges ==> m.ranges[id].asma != a
    ensures Inv(m.(areas := m.areas - {a}))
  {
    hide GoodList, Pages, NoDup;
    var m' := m.(areas := m.areas - {a});
    forall id | id in m'.ranges
      ensures Listed(m', id)
    {
      OwnListed(m, id);
    }
  }

  // ---------- Every operation keeps the invariant ----------

  /** Changing sizes and files alone does not disturb lists or LRU. */
  lemma AreaFieldsKeepInv(m: Mem, m': Mem)
    requires Inv(m) && m'.ranges == m.ranges && m'.lru == m.lru && m'.lruCount == m.lruCount
    requires m.areas.Keys <= m'.areas.Keys
    requires forall a :: a in m'.areas ==> m'.areas[a].unpinned == (if a in m.areas then m.areas[a].unpinned else [])
    ensures Inv(m')
  {
    forall b | b in m'.areas
      ensures GoodList(m'.ranges, b, m'.areas[b].unpinned)
    {
      if b in m.areas {
        assert GoodList(m.ranges, b, m.areas[b].unpinned);
      }
    }
    forall id | id in m'.ranges
      ensures Listed(m', id)
    {
      assert Listed(m, id);
    }
  }

  lemma OpenKeepsInv(m: Mem, a: AreaId)
    requires MemInv(m) && a !in m.areas
    ensures MemInv(Open(m, a))
  {
    hide ListsInv, LruInv;
    AreaFieldsKeepInv(m, Open(m, a));
  }

  lemma SetSizeKeepsInv(m: Mem, a: AreaId, size: nat)
    requires MemInv(m) && a in m.areas
    ensures MemInv(SetSize(m, a, size).0)
  {
    hide ListsInv, LruInv;
    AreaFieldsKeepInv(m, SetSize(m, a, size).0);
  }

  lemma MmapKeepsInv(m: Mem, a: AreaId, length: nat, allowed: bool, setup: Option<FileId>)
    requires MemInv(m) && a in m.areas && length > 0
    requires setup.Some? ==> forall b :: b in m.areas ==> m.areas[b].file != setup
    ensures MemInv(Mmap(m, a, length, allowed, setup).0)
  {
    hide ListsInv, LruInv;
    AreaFieldsKeepInv(m, Mmap(m, a, length, allowed, setup).0);
  }

  lemma MarkKeepsMemInv(m: Mem)
    requires MemInv(m) && m.lru != []
    ensures m.lru[0] in m.ranges && MemInv(MarkOldest(m))
  {
    hide ListsInv, LruInv;
    MarkOldestKeepsInv(m);
  }

  lemma ReleaseKeepsMemInv(m: Mem, a: AreaId)
    requires MemInv(m) && CanVisit(m, a, 0)
    ensures MemInv(Release(m, a))
  {
    hide ListsInv, LruInv, Release, PageAlign;
    ReleaseForgetsArea(m, a);
  }

  /** Sizes and files stay, ranges stay with areas that have a file, and stay in bounds. */
  lemma PinUnpinKeepsMemInv(m: Mem, a: AreaId, cmd: Command, offset: nat, len: nat, fresh': RangeId)
    requires MemInv(m) && a in m.areas && offset < U32 && len < U32 && fresh' !in m.ranges
    ensures MemInv(PinUnpin(m, a, cmd, offset, len, fresh').0)
    ensures OnlyRangesOf(m, PinUnpin(m, a, cmd, offset, len, fresh').0, a)
  {
    var size := m.areas[a].size;
    var m' := PinUnpin(m, a, cmd, offset, len, fresh').0;
    FrameSame(m, a);
    if m.areas[a].file.Some? && Decode(size, offset, len).Accepted? && !cmd.GetPinStatus? {
      var d := Decode(size, offset, len);
      var limit := if PageAlign(size) % U32 != 0 then PageAlign(size) / PAGE_SIZE else WORD;
      AcceptedInBoundsIff(size, offset, len);
      InvCanVisit(m, a);
      AllWellFormed(m);
      if cmd.PinPages? {
        PinIsDifference(m, a, d.pgstart, d.pgend, fresh');
        PinFromFrame(m, a, 0, d.pgstart, d.pgend, false, fresh', limit, false);
      } else {
        UnpinIsUnion(m, a, d.pgstart, d.pgend, fresh');
        UnpinFromBounded(m, a, 0, d.pgstart, d.pgend, false, fresh', limit, false);
      }
      FilesStay(m, m', a, limit);
    }
  }

  /**
    What a request does: a refused one does nothing, a pin takes exactly its pages out of the
    unpinned set, an unpin puts exactly its pages in, a status request changes nothing.
   */
  ghost predicate RequestDone(m: Mem, m': Mem, reply: Reply, a: AreaId, cmd: Command, offset: nat, len: nat)
    requires a in m.areas
  {
    var d := Decode(m.areas[a].size, offset, len);
    if m.areas[a].file.None? || d.Rejected? then m' == m && reply == Invalid
    else
      match cmd
      case PinPages => PagesRemoved(m, m', a, d.pgstart, d.pgend) && reply.PinReply?
      case UnpinPages => PagesAdded(m, m', a, d.pgstart, d.pgend) && reply == UnpinReply
      case GetPinStatus => m' == m && reply.StatusReply?
  }

  lemma RequestDoes(m: Mem, a: AreaId, cmd: Command, offset: nat, len: nat, fresh': RangeId)
    requires MemInv(m) && a in m.areas && offset < U32 && len < U32 && fresh' !in m.ranges
    ensures var (m', reply) := PinUnpin(m, a, cmd, offset, len, fresh'); RequestDone(m, m', reply, a, cmd, offset, len)
  {
    hide ListsInv, LruInv, BoundsInv, PinFrom, UnpinFrom, PagesRemoved, PagesAdded, Decode, PageAlign;
    var d := Decode(m.areas[a].size, offset, len);
    if m.areas[a].file.Some? && d.Accepted? {
      InvCanVisit(m, a);
      AcceptedInBoundsIff(m.areas[a].size, offset, len);
      if cmd.PinPages? {
        PinIsDifference(m, a, d.pgstart, d.pgend, fresh');
      } else if cmd.UnpinPages? {
        UnpinIsUnion(m, a, d.pgstart, d.pgend, fresh');
      }
    }
  }

  /** The size can be set exactly while there is no backing file, and nothing else changes. */
  lemma SetSizeDoes(m: Mem, a: AreaId, size: nat)
    requires a in m.areas && size < WORD
    ensures var (m', ok) := SetSize(m, a, size);
            && (ok <==> m.areas[a].file.None?) && m'.areas.Keys == m.areas.Keys
            && m'.areas[a] == Area(if ok then size else m.areas[a].size, m.areas[a].file, m.areas[a].unpinned)
            && (forall b :: b in m.areas && b != a ==> m'.areas[b] == m.areas[b])
            && m'.ranges == m.ranges && m'.lru == m.lru && m'.lruCount == m.lruCount
  {
  }

  /**
    A mapping succeeds exactly if it fits the pages of an area with a size, its protection is
    allowed, and a backing file is there or can be set up. The area then has a file, the one it
    had if it had one; otherwise nothing changes.
   */
  lemma MmapDoes(m: Mem, a: AreaId, length: nat, allowed: bool, setup: Option<FileId>)
    requires a in m.areas && m.areas[a].size < WORD && length > 0
    ensures var (m', ok), area := Mmap(m, a, length, allowed, setup), m.areas[a];
            && (ok <==> 0 < area.size <= WORD - PAGE_SIZE && allowed && (area.file.Some? || setup.Some?)
                        && length <= area.size + (PAGE_SIZE - 1 - (area.size - 1) % PAGE_SIZE))
            && m'.areas.Keys == m.areas.Keys
            && m'.areas[a] == area.(file := if ok && area.file.None? then setup else area.file)
            && (forall b :: b in m.areas && b != a ==> m'.areas[b] == m.areas[b])
            && m'.ranges == m.ranges && m'.lru == m.lru && m'.lruCount == m.lruCount
  {
    if 0 < m.areas[a].size <= WORD - PAGE_SIZE {
      PageAlignUp(m.areas[a].size);
    }
  }

  lemma PageAlignUp(size: nat)
    requires 0 < size <= WORD - PAGE_SIZE
    ensures PageAlign(size) == size + (PAGE_SIZE - 1 - (size - 1) % PAGE_SIZE)
  {
  }

  lemma AllWellFormed(m: Mem)
    requires ListsInv(m)
    ensures forall id :: id in m.ranges ==> WellFormed(m.ranges[id])
  {
    forall id | id in m.ranges
      ensures WellFormed(m.ranges[id])
    {
      OwnList(m, id);
    }
  }

  lemma FilesStayFiles(m: Mem, m': Mem, a: AreaId)
    requires FilesInv(m) && OnlyRangesOf(m, m', a) && a in m.areas && m.areas[a].file.Some?
    ensures FilesInv(m')
  {
    hide PageAlign;
  }

  lemma FilesStay(m: Mem, m': Mem, a: AreaId, limit: int)
    requires FilesInv(m) && BoundsInv(m) && OnlyRangesOf(m, m', a) && a in m.areas && m.areas[a].file.Some?
    requires Bounded(m', a, limit, false)
    requires PageAlign(m.areas[a].size) % U32 != 0 ==> limit == PageAlign(m.areas[a].size) / PAGE_SIZE
    ensures FilesInv(m') && BoundsInv(m')
  {
    FilesStayFiles(m, m', a);
    hide FilesInv, PageAlign;
    forall b | b in m'.areas && b != a && PageAlign(m'.areas[b].size) % U32 != 0
      ensures Bounded(m', b, PageAlign(m'.areas[b].size) / PAGE_SIZE, false)
    {
      assert Bounded(m, b, PageAlign(m.areas[b].size) / PAGE_SIZE, false);
    }
  }

  // ---------- Where the code misses its promise ----------

  /**
    For an area with a backing file, "unpin everything" leaves its ranges inside the area
    exactly if the aligned size is not a multiple of 4 GiB.
   */
  lemma UnpinAllInBoundsIff(m: Mem, a: AreaId, fresh': RangeId)
    requires MemInv(m) && a in m.areas && m.areas[a].file.Some? && fresh' !in m.ranges
    ensures Bounded(PinUnpin(m, a, UnpinPages, 0, 0, fresh').0, a, PageAlign(m.areas[a].size) / PAGE_SIZE, false) <==>
      PageAlign(m.areas[a].size) % U32 != 0
  {
    hide ListsInv, LruInv, UnpinFrom, PinFrom, StatusFrom, OnlyRangesOf, Merged, NoEmptyRange, FilesDistinct;
    PinUnpinKeepsMemInv(m, a, UnpinPages, 0, 0, fresh');
    InvCanVisit(m, a);
    if PageAlign(m.areas[a].size) % U32 == 0 {
      assert Decode(m.areas[a].size, 0, 0) == Accepted(0, WORD - 1);
      UnpinIsUnion(m, a, 0, WORD - 1, fresh');
      PageOutOfBounds(Unpin(m, a, 0, WORD - 1, fresh'), a, WORD - 1, PageAlign(m.areas[a].size) / PAGE_SIZE);
    }
  }

  lemma PageOutOfBounds(m: Mem, a: AreaId, p: nat, limit: int)
    requires Unpinned(m, a, p) && limit <= p
    ensures !Bounded(m, a, limit, false)
  {
    var f := HeldAs(m, a, p, true);
    var id :| id in m.ranges && m.ranges[id].asma == a && m.ranges[id].purged == f && PageInRange(m.ranges[id], p);
  }

  /**
    A zero-length unpin at the end of a two-page area leaves an empty range, after which the
    status of the area reads UNPINNED although every page is pinned.
   */
  lemma EmptyRangeFoolsStatus(m: Mem, a: AreaId, fresh': RangeId, other: RangeId)
    requires MemInv(m) && a in m.areas && m.areas[a].file.Some? && m.areas[a].size == 8192 && m.areas[a].unpinned == []
    requires fresh' !in m.ranges && other !in m.ranges && other != fresh'
    ensures var m' := PinUnpin(m, a, UnpinPages, 8192, 0, fresh').0;
            && MemInv(m') && other !in m'.ranges && (forall p: nat :: !Unpinned(m', a, p))
            && PinUnpin(m', a, GetPinStatus, 0, 0, other).1 == StatusReply(true)
  {
    hide ListsInv, LruInv, BoundsInv, UnpinFrom, PinFrom, StatusFrom, OnlyRangesOf, Decode, PageAlign;
    PinUnpinKeepsMemInv(m, a, UnpinPages, 8192, 0, fresh');
    LargeAreaExamples();
    InvCanVisit(m, a);
    forall id | id in m.ranges
      ensures m.ranges[id].asma != a
    {
      OwnList(m, id);
    }
    EmptyUnpin(m, a, fresh');
  }

  lemma EmptyUnpin(m: Mem, a: AreaId, fresh': RangeId)
    requires CanVisit(m, a, 0) && m.areas[a].unpinned == [] && (forall id :: id in m.ranges ==> m.ranges[id].asma != a)
    ensures var m' := Unpin(m, a, 2, 1, fresh');
            && m'.ranges == m.ranges[fresh' := Range(a, 2, 1, false)] && m'.areas[a].file == m.areas[a].file
            && m'.areas[a].size == m.areas[a].size && (forall p: nat :: !Unpinned(m', a, p))
            && CanVisit(m', a, 0) && StatusFrom(m', a, 0, 0, 1)
  {
    var m' := Unpin(m, a, 2, 1, fresh');
    assert m'.areas[a].unpinned == [fresh'];
  }
}
