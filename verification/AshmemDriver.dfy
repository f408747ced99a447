/**
  The driver with its tables updated in place: each method is the C function of the same
  name, proved to change the tables as `AshmemRanges`, `AshmemPinning` and their kin say.
  Every method is called with ashmem_mutex held.
 */
module AshmemDriver {
  import opened AshmemRanges
  import opened AshmemPinning
  import opened AshmemUnpinning
  import opened AshmemRequest
  import opened AshmemIoctl
  import opened AshmemShrinking

  class Driver {
    var areas: map<AreaId, Area>
    var ranges: map<RangeId, Range>
    var lru: seq<RangeId>
    var lruCount: nat

    ghost function View(): Mem
      reads this
    {
      Mem(areas, ranges, lru, lruCount)
    }

    constructor ()
      ensures View() == Mem(map[], map[], [], 0) && MemInv(View())
    {
      areas, ranges, lru, lruCount := map[], map[], [], 0;
    }

    method LruAdd(id: RangeId)
      requires id in ranges
      modifies this`lru, this`lruCount
      ensures View() == AshmemRanges.LruAdd(old(View()), id)
    {
      lru := lru + [id];
      lruCount := (lruCount + RangeSize(ranges[id])) % WORD;
    }

    method LruDel(id: RangeId)
      requires id in ranges
      modifies this`lru, this`lruCount
      ensures View() == AshmemRanges.LruDel(old(View()), id)
    {
      lru := Without(lru, id);
      lruCount := (lruCount - RangeSize(ranges[id])) % WORD;
    }

    method RangeAlloc(a: AreaId, pos: nat, purged: bool, start: nat, end: nat, id: RangeId)
      requires a in areas && pos <= |areas[a].unpinned|
      modifies this
      ensures View() == AshmemRanges.RangeAlloc(old(View()), a, pos, purged, start, end, id)
      ensures ranges.Keys == old(ranges).Keys + {id}
    {
      var ids := areas[a].unpinned;
      ranges := ranges[id := Range(a, start, end, purged)];
      areas := areas[a := areas[a].(unpinned := ids[..pos] + [id] + ids[pos..])];
      if RangeOnLru(ranges[id]) {
        LruAdd(id);
      }
    }

    method RangeDel(id: RangeId)
      requires id in ranges && ranges[id].asma in areas
      modifies this
      ensures View() == AshmemRanges.RangeDel(old(View()), id)
    {
      var a := ranges[id].asma;
      areas := areas[a := areas[a].(unpinned := Without(areas[a].unpinned, id))];
      if RangeOnLru(ranges[id]) {
        LruDel(id);
      }
      ranges := ranges - {id};
    }

    method RangeShrink(id: RangeId, start: nat, end: nat)
      requires id in ranges
      modifies this`ranges, this`lruCount
      ensures View() == AshmemRanges.RangeShrink(old(View()), id, start, end)
    {
      var pre := RangeSize(ranges[id]);
      ranges := ranges[id := ranges[id].(pgstart := start, pgend := end)];
      if RangeOnLru(ranges[id]) {
        lruCount := (lruCount - (pre - RangeSize(ranges[id])) % WORD) % WORD;
      }
    }

    /** ashmem_pin. The spare range is used up only if the tables hold it afterwards. */
    method Pin(a: AreaId, pgstart: nat, pgend: nat, spare: RangeId) returns (purged: bool)
      requires Inv(View()) && a in areas && pgstart <= pgend + 1 && spare !in ranges
      modifies this
      ensures CanVisit(old(View()), a, 0)
              && (View(), purged) == AshmemPinning.Pin(old(View()), a, pgstart, pgend, spare)
      ensures Inv(View()) && PagesRemoved(old(View()), View(), a, pgstart, pgend)
      ensures purged <==> Touched(old(View()), a, pgstart, pgend, true)
    {
      hide Inv, PagesRemoved, Touched, AshmemRanges.RangeDel, AshmemRanges.RangeShrink, AshmemRanges.RangeAlloc;
      AreaCanVisit(View(), a);
      PinIsDifference(View(), a, pgstart, pgend, spare);
      purged := false;
      var i := 0;
      while i < |areas[a].unpinned|
        invariant CanVisit(View(), a, i) && spare !in ranges
        invariant PinFrom(View(), a, i, pgstart, pgend, purged, spare) ==
                  PinFrom(old(View()), a, 0, pgstart, pgend, false, spare)
        decreases |areas[a].unpinned| - i
      {
        ghost var v := PinVisit(View(), a, i, pgstart, pgend, purged, spare);
        var id := areas[a].unpinned[i];
        var range := ranges[id];
        if RangeBeforePage(range, pgstart) {
          break;
        }
        if PageRangeInRange(range, pgstart, pgend) {
          purged := purged || range.purged;
          if PageRangeSubsumesRange(range, pgstart, pgend) {
            RangeDel(id);
            assert View() == v.mem;
            continue;
          }
          if range.pgstart >= pgstart {
            RangeShrink(id, pgend + 1, range.pgend);
            i := i + 1;
            assert View() == v.mem;
            continue;
          }
          if range.pgend <= pgend {
            RangeShrink(id, range.pgstart, pgstart - 1);
            i := i + 1;
            assert View() == v.mem;
            continue;
          }
          RangeAlloc(a, i, range.purged, pgend + 1, range.pgend, spare);
          RangeShrink(id, range.pgstart, pgstart - 1);
          return;
        }
        i := i + 1;
      }
    }

    /** ashmem_unpin, with its restart after each merge. */
    method Unpin(a: AreaId, pgstart: nat, pgend: nat, spare: RangeId)
      requires Inv(View()) && a in areas && pgstart <= pgend + 1 && pgend < WORD && spare !in ranges
      modifies this
      ensures CanVisit(old(View()), a, 0) && View() == AshmemUnpinning.Unpin(old(View()), a, pgstart, pgend, spare)
      ensures Inv(View()) && PagesAdded(old(View()), View(), a, pgstart, pgend)
      ensures Merged(old(View()), View(), a, pgstart, pgend, false, spare)
    {
      hide Inv, PagesAdded, Merged, OnlyRangesOf, NoEmptyRange, AshmemRanges.RangeAlloc;
      AreaCanVisit(View(), a);
      UnpinIsUnion(View(), a, pgstart, pgend, spare);
      var start, end, purged, i := pgstart, pgend, false, 0;
      while i < |areas[a].unpinned|
        invariant CanVisit(View(), a, i) && start <= end + 1
        invariant UnpinFrom(View(), a, i, start, end, purged, spare) ==
                  UnpinFrom(old(View()), a, 0, pgstart, pgend, false, spare)
        decreases |areas[a].unpinned|, |areas[a].unpinned| - i
      {
        var id := areas[a].unpinned[i];
        var range := ranges[id];
        if RangeBeforePage(range, start) {
          break;
        }
        if PageRangeSubsumedByRange(range, start, end) {
          return;
        }
        if PageRangeInRange(range, start, end) {
          start := Min(range.pgstart, start);
          end := Max(range.pgend, end);
          purged := purged || range.purged;
          DelCanVisit(View(), a, i);
          RangeDel(id);
          i := 0;
        } else {
          i := i + 1;
        }
      }
      RangeAlloc(a, i, purged, start, end, spare);
    }

    /** ashmem_get_pin_status; true stands for ASHMEM_IS_UNPINNED. */
    method GetPinStatus(a: AreaId, pgstart: nat, pgend: nat) returns (unpinned: bool)
      requires Inv(View()) && a in areas
      ensures CanVisit(View(), a, 0) && unpinned == StatusFrom(View(), a, 0, pgstart, pgend)
      ensures unpinned <==> Touched(View(), a, pgstart, pgend, false)
      ensures pgstart <= pgend + 1 && NoEmptyRange(View(), a) ==>
                (unpinned <==> PageMet(View(), a, pgstart, Max(pgstart, pgend), false))
    {
      InvCanVisit(View(), a);
      StatusFromFindsOverlap(View(), a, 0, pgstart, pgend);
      TouchedIffListed(View(), a, pgstart, pgend, false);
      if pgstart <= pgend + 1 {
        StatusIsOverlap(View(), a, pgstart, pgend);
      }
      hide Inv, Touched, TouchedFrom, PageMet, EmptyRangeInside;
      unpinned := false;
      var i := 0;
      while i < |areas[a].unpinned|
        invariant CanVisit(View(), a, i)
        invariant !unpinned && (StatusFrom(View(), a, i, pgstart, pgend) <==> StatusFrom(View(), a, 0, pgstart, pgend))
      {
        var range := ranges[areas[a].unpinned[i]];
        if RangeBeforePage(range, pgstart) {
          break;
        }
        if PageRangeInRange(range, pgstart, pgend) {
          unpinned := true;
          return;
        }
        i := i + 1;
      }
    }

    /** The range checks of ashmem_pin_unpin. */
    method DecodeRequest(size: nat, offset: nat, len: nat) returns (d: Decoded)
      requires size < WORD && offset < U32 && len < U32
      ensures d == Decode(size, offset, len)
    {
      var align := PageAlign(size);
      var length := if len == 0 then (align - offset) % U32 else len;
      if offset % PAGE_SIZE != 0 || length % PAGE_SIZE != 0 {
        return Rejected;
      }
      if U32 - 1 - offset < length {
        return Rejected;
      }
      if align < offset + length {
        return Rejected;
      }
      var pgstart := offset / PAGE_SIZE;
      d := Accepted(pgstart, (pgstart + length / PAGE_SIZE - 1) % WORD);
    }

    /** ashmem_pin_unpin once the request was copied in and the mutex taken. */
    method PinUnpin(a: AreaId, cmd: Command, offset: nat, len: nat, spare: RangeId) returns (reply: Reply)
      requires MemInv(View()) && a in areas && offset < U32 && len < U32 && spare !in ranges
      modifies this
      ensures MemInv(View())
      ensures (View(), reply) == AshmemIoctl.PinUnpin(old(View()), a, cmd, offset, len, spare)
      ensures RequestDone(old(View()), View(), reply, a, cmd, offset, len)
    {
      RequestDoes(View(), a, cmd, offset, len, spare);
      hide Inv, BoundsInv, PagesRemoved, PagesAdded, Merged, Touched, PinFrom, UnpinFrom, Decode, PageAlign,
           RequestDone;
      PinUnpinKeepsMemInv(View(), a, cmd, offset, len, spare);
      if areas[a].file.None? {
        return Invalid;
      }
      var d := DecodeRequest(areas[a].size, offset, len);
      if d.Rejected? {
        return Invalid;
      }
      AcceptedInBoundsIff(areas[a].size, offset, len);
      var pgstart, pgend := d.pgstart, d.pgend;
      match cmd {
        case PinPages =>
          var purged := Pin(a, pgstart, pgend, spare);
          reply := PinReply(purged);
        case UnpinPages =>
          Unpin(a, pgstart, pgend, spare);
          reply := UnpinReply;
        case GetPinStatus =>
          var unpinned := GetPinStatus(a, pgstart, pgend);
          reply := StatusReply(unpinned);
      }
    }

    /** ashmem_release: every range of the area leaves both lists, then the area goes. */
    method Release(a: AreaId)
      requires Inv(View()) && a in areas
      modifies this
      ensures CanVisit(old(View()), a, 0) && View() == AshmemIoctl.Release(old(View()), a)
      ensures Inv(View()) && areas.Keys == old(areas).Keys - {a}
      ensures forall b :: b in areas ==> areas[b] == old(areas)[b]
      ensures forall id :: id in lru ==> id in old(ranges) && old(ranges)[id].asma != a
      ensures forall id :: id in ranges <==> id in old(ranges) && old(ranges)[id].asma != a
      ensures forall id :: id in ranges ==> ranges[id] == old(ranges)[id]
    {
      hide Inv, AshmemRanges.RangeDel, OnlyRangesOf;
      AreaCanVisit(View(), a);
      ReleaseForgetsArea(View(), a);
      DropRangesDropsAll(View(), a);
      while areas[a].unpinned != []
        invariant CanVisit(View(), a, 0) && DropRanges(View(), a) == DropRanges(old(View()), a)
        decreases |areas[a].unpinned|
      {
        DelCanVisit(View(), a, 0);
        RangeDel(areas[a].unpinned[0]);
      }
      areas := areas - {a};
    }

    /** ashmem_shrink_scan with every trylock succeeding. */
    method ShrinkScan(nrToScan: nat) returns (freed: nat)
      requires Inv(View()) && nrToScan < WORD
      modifies this
      ensures Inv(View()) && PrefixPurged(old(View()), View(), Quota(old(View()), nrToScan))
      ensures freed == (old(lruCount) - lruCount) % WORD
    {
      hide Inv, PrefixPurged, RangeSize;
      InvScanReady(View());
      ScanPurgesOldest(View(), nrToScan, 0);
      freed := 0;
      var nr := nrToScan;
      while lru != []
        invariant ScanReady(View()) && nr >= 0 && Scan(View(), nr, freed) == Scan(old(View()), nrToScan, 0)
        decreases |lru|
      {
        ghost var m := View();
        MarkScanReady(m);
        var id := lru[0];
        freed := (freed + RangeSize(ranges[id])) % WORD;
        ranges := ranges[id := ranges[id].(purged := true)];
        LruDel(id);
        assert View() == MarkOldest(m);
        nr := (nr - 1) % WORD;
        if nr == 0 {
          break;
        }
      }
    }
  }

  lemma AreaCanVisit(m: Mem, a: AreaId)
    requires Inv(m) && a in m.areas
    ensures CanVisit(m, a, 0)
  {
    InvCanVisit(m, a);
  }

  lemma InvScanReady(m: Mem)
    requires Inv(m)
    ensures ScanReady(m)
  {
  }

  lemma MarkScanReady(m: Mem)
    requires ScanReady(m) && m.lru != []
    ensures ScanReady(MarkOldest(m)) && |MarkOldest(m).lru| < |m.lru|
  {
    WithoutIndex(m.lru, 0);
  }

  ghost predicate ScanReady(m: Mem) {
    && (forall i :: 0 <= i < |m.lru| ==> m.lru[i] in m.ranges)
    && NoDup(m.lru)
  }
}
