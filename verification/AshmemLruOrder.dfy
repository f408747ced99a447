/**
  The LRU list is ordered by age: whatever a request, a release or the shrinker does, the
  ranges that stay on the list keep their order, and a range that joins it joins at the end.
 */
module AshmemLruOrder {
  import opened AshmemRanges
  import opened AshmemPinning
  import opened AshmemUnpinning
  import opened AshmemRequest
  import opened AshmemIoctl

  /** The elements of s that are in k, in the order of s. */
  function Filter(s: seq<RangeId>, k: set<RangeId>): seq<RangeId> {
    if s == [] then [] else (if s[0] in k then [s[0]] else []) + Filter(s[1..], k)
  }

  function Members(s: seq<RangeId>): set<RangeId> { set x | x in s }

  /** `now` is what is left of `before`, in order, and `fresh'` at the end if it is there at all. */
  ghost predicate Aged(before: seq<RangeId>, now: seq<RangeId>, fresh': RangeId) {
    now == Filter(before, Members(now) - {fresh'}) + if fresh' in now then [fresh'] else []
  }

  lemma {:induction false} FilterAll(s: seq<RangeId>, k: set<RangeId>)
    requires forall x :: x in s ==> x in k
    ensures Filter(s, k) == s
  {
    if s != [] {
      assert s[0] in s && forall x :: x in s[1..] ==> x in s;
      FilterAll(s[1..], k);
    }
  }

  lemma {:induction false} FilterMembers(s: seq<RangeId>, k: set<RangeId>)
    ensures forall x :: x in Filter(s, k) <==> x in s && x in k
  {
    if s != [] {
      FilterMembers(s[1..], k);
      assert forall x :: x in s <==> x == s[0] || x in s[1..];
    }
  }

  lemma {:induction false} FilterTwice(s: seq<RangeId>, k: set<RangeId>, l: set<RangeId>)
    requires l <= k
    ensures Filter(Filter(s, k), l) == Filter(s, l)
  {
    if s != [] {
      FilterTwice(s[1..], k, l);
      if s[0] in k {
        assert Filter(s, k) == [s[0]] + Filter(s[1..], k);
        assert Filter(s, k)[1..] == Filter(s[1..], k);
      } else {
        assert Filter(s, k) == Filter(s[1..], k);
      }
    }
  }

  lemma {:induction false} WithoutIsFilter(s: seq<RangeId>, x: RangeId, k: set<RangeId>)
    requires NoDup(s) && k == Members(s) - {x}
    ensures Without(s, x) == Filter(s, k)
  {
    if s != [] {
      var rest := s[1..];
      assert s[0] !in rest;
      if s[0] == x {
        FilterAll(rest, k);
      } else {
        assert Members(rest) - {x} <= k;
        WithoutIsFilter(rest, x, Members(rest) - {x});
        FilterSame(rest, Members(rest) - {x}, k);
      }
    }
  }

  lemma {:induction false} FilterSame(s: seq<RangeId>, k: set<RangeId>, l: set<RangeId>)
    requires forall x :: x in s ==> (x in k <==> x in l)
    ensures Filter(s, k) == Filter(s, l)
  {
    if s != [] {
      assert s[0] in s && forall x :: x in s[1..] ==> x in s;
      FilterSame(s[1..], k, l);
    }
  }

  lemma {:induction false} FilterOrder(s: seq<RangeId>, k: set<RangeId>, i: nat, j: nat) returns (p: nat, q: nat)
    requires i < j < |Filter(s, k)|
    ensures p < q < |s| && s[p] == Filter(s, k)[i] && s[q] == Filter(s, k)[j]
  {
    var f := Filter(s[1..], k);
    if s[0] in k && i == 0 {
      FilterMembers(s[1..], k);
      assert Filter(s, k)[j] == f[j - 1] && f[j - 1] in f;
      q :| 0 <= q < |s[1..]| && s[1..][q] == f[j - 1];
      p, q := 0, q + 1;
    } else {
      var d := if s[0] in k then 1 else 0;
      assert Filter(s, k)[i] == f[i - d] && Filter(s, k)[j] == f[j - d];
      p, q := FilterOrder(s[1..], k, i - d, j - d);
      p, q := p + 1, q + 1;
    }
  }

  /** Of two ranges that were on the list before, the older stays ahead; the new one is behind all. */
  lemma AgedMeans(before: seq<RangeId>, now: seq<RangeId>, fresh': RangeId, i: nat, j: nat)
    requires Aged(before, now, fresh') && i < j < |now|
    ensures now[i] != fresh'
    ensures now[j] != fresh' ==> exists p, q :: 0 <= p < q < |before| && before[p] == now[i] && before[q] == now[j]
  {
    var k := Members(now) - {fresh'};
    FilterMembers(before, k);
    assert Filter(before, k)[i] in Filter(before, k);
    if now[j] != fresh' {
      var p, q := FilterOrder(before, k, i, j);
    }
  }

  // ---------- One change of the list ----------

  lemma SameAges(s: seq<RangeId>, fresh': RangeId)
    requires fresh' !in s
    ensures Aged(s, s, fresh')
  {
    FilterAll(s, Members(s) - {fresh'});
  }

  lemma AppendAges(s: seq<RangeId>, fresh': RangeId)
    requires fresh' !in s
    ensures Aged(s, s + [fresh'], fresh')
  {
    FilterAll(s, Members(s + [fresh']) - {fresh'});
  }

  lemma RemoveAges(s: seq<RangeId>, x: RangeId, fresh': RangeId)
    requires NoDup(s) && fresh' !in s
    ensures Aged(s, Without(s, x), fresh')
  {
    WithoutMembers(s, x);
    WithoutIsFilter(s, x, Members(s) - {x});
    assert Members(Without(s, x)) - {fresh'} == Members(s) - {x};
  }

  lemma AgesCompose(s: seq<RangeId>, t: seq<RangeId>, u: seq<RangeId>, fresh': RangeId)
    requires Aged(s, t, fresh') && fresh' !in t && Aged(t, u, fresh')
    ensures Aged(s, u, fresh')
  {
    var k, l := Members(t) - {fresh'}, Members(u) - {fresh'};
    FilterMembers(t, l);
    assert t == Filter(s, k);
    assert l <= k by {
      forall x | x in l
        ensures x in k
      {
        assert x in u;
      }
    }
    FilterTwice(s, k, l);
  }

  // ---------- The operations ----------

  lemma DelAges(m: Mem, id: RangeId, fresh': RangeId)
    requires LruInv(m) && id in m.ranges && m.ranges[id].asma in m.areas && fresh' !in m.ranges
    ensures Aged(m.lru, RangeDel(m, id).lru, fresh')
  {
    SameAges(m.lru, fresh');
    RemoveAges(m.lru, id, fresh');
  }

  lemma AllocAges(m: Mem, a: AreaId, pos: nat, purged: bool, start: nat, end: nat, fresh': RangeId)
    requires LruInv(m) && a in m.areas && pos <= |m.areas[a].unpinned| && fresh' !in m.ranges
    ensures Aged(m.lru, RangeAlloc(m, a, pos, purged, start, end, fresh').lru, fresh')
  {
    SameAges(m.lru, fresh');
    AppendAges(m.lru, fresh');
  }

  lemma VisitAges(m: Mem, a: AreaId, i: nat, start: nat, end: nat, acc: bool, fresh': RangeId)
    requires LruInv(m) && CanVisit(m, a, i) && i < |m.areas[a].unpinned| && start <= end + 1 && fresh' !in m.ranges
    ensures Aged(m.lru, PinVisit(m, a, i, start, end, acc, fresh').mem.lru, fresh')
  {
    hide Aged;
    var id := m.areas[a].unpinned[i];
    SameAges(m.lru, fresh');
    DelAges(m, id, fresh');
    AllocAges(m, a, i, m.ranges[id].purged, end + 1, m.ranges[id].pgend, fresh');
  }

  lemma LruHasNot(m: Mem, fresh': RangeId)
    requires LruInv(m) && fresh' !in m.ranges
    ensures fresh' !in m.lru
  {
  }

  lemma {:induction false} PinFromAges(m: Mem, a: AreaId, i: nat, start: nat, end: nat, acc: bool, fresh': RangeId)
    requires Inv(m) && CanVisit(m, a, i) && start <= end + 1 && fresh' !in m.ranges && Passed(m, a, i, start, end)
    ensures Aged(m.lru, PinFrom(m, a, i, start, end, acc, fresh').0.lru, fresh')
    decreases |m.areas[a].unpinned| - i
  {
    hide Aged, PinVisit, ListsInv, LruInv, Passed;
    LruHasNot(m, fresh');
    SameAges(m.lru, fresh');
    if i < |m.areas[a].unpinned| {
      var v := PinVisit(m, a, i, start, end, acc, fresh');
      VisitAges(m, a, i, start, end, acc, fresh');
      if !v.stop {
        VisitCuts(m, a, i, start, end, acc, fresh');
        PinFromAges(v.mem, a, v.next, start, end, v.acc, fresh');
        LruHasNot(v.mem, fresh');
        AgesCompose(m.lru, v.mem.lru, PinFrom(m, a, i, start, end, acc, fresh').0.lru, fresh');
      }
    }
  }

  lemma {:induction false} UnpinFromAges(m: Mem, a: AreaId, i: nat, start: nat, end: nat, acc: bool, fresh': RangeId)
    requires Inv(m) && CanVisit(m, a, i) && start <= end + 1 && fresh' !in m.ranges
    ensures Aged(m.lru, UnpinFrom(m, a, i, start, end, acc, fresh').lru, fresh')
    decreases |m.areas[a].unpinned|, |m.areas[a].unpinned| - i
  {
    hide Aged, ListsInv, LruInv;
    LruHasNot(m, fresh');
    SameAges(m.lru, fresh');
    AllocAges(m, a, i, acc, start, end, fresh');
    var ids := m.areas[a].unpinned;
    if i < |ids| && !RangeBeforePage(m.ranges[ids[i]], start)
       && !PageRangeSubsumedByRange(m.ranges[ids[i]], start, end) {
      var r := m.ranges[ids[i]];
      if PageRangeInRange(r, start, end) {
        AbsorbStep(m, a, i, start, end);
        DelAges(m, ids[i], fresh');
        var m1 := RangeDel(m, ids[i]);
        UnpinFromAges(m1, a, 0, Min(r.pgstart, start), Max(r.pgend, end), acc || r.purged, fresh');
        LruHasNot(m1, fresh');
        AgesCompose(m.lru, m1.lru, UnpinFrom(m, a, i, start, end, acc, fresh').lru, fresh');
      } else {
        UnpinFromAges(m, a, i + 1, start, end, acc, fresh');
      }
    }
  }

  /** Every pin, unpin and status request keeps the LRU list in order of age. */
  lemma RequestKeepsAge(m: Mem, a: AreaId, cmd: Command, offset: nat, len: nat, fresh': RangeId)
    requires MemInv(m) && a in m.areas && offset < U32 && len < U32 && fresh' !in m.ranges
    ensures Aged(m.lru, PinUnpin(m, a, cmd, offset, len, fresh').0.lru, fresh')
  {
    hide Aged, ListsInv, LruInv, BoundsInv, PinFrom, UnpinFrom, Decode;
    LruHasNot(m, fresh');
    SameAges(m.lru, fresh');
    var d := Decode(m.areas[a].size, offset, len);
    if m.areas[a].file.Some? && d.Accepted? {
      InvCanVisit(m, a);
      AcceptedInBoundsIff(m.areas[a].size, offset, len);
      PinFromAges(m, a, 0, d.pgstart, d.pgend, false, fresh');
      UnpinFromAges(m, a, 0, d.pgstart, d.pgend, false, fresh');
    }
  }

  /** So does release. */
  lemma {:induction false} DropKeepsAge(m: Mem, a: AreaId, unused: RangeId)
    requires Inv(m) && CanVisit(m, a, 0) && unused !in m.ranges
    ensures Aged(m.lru, DropRanges(m, a).lru, unused)
    decreases |m.areas[a].unpinned|
  {
    hide Aged, ListsInv, LruInv;
    LruHasNot(m, unused);
    SameAges(m.lru, unused);
    if m.areas[a].unpinned != [] {
      AbsorbStep(m, a, 0, 0, 0);
      var id := m.areas[a].unpinned[0];
      var m1 := RangeDel(m, id);
      DelAges(m, id, unused);
      DropKeepsAge(m1, a, unused);
      LruHasNot(m1, unused);
      AgesCompose(m.lru, m1.lru, DropRanges(m, a).lru, unused);
    }
  }

  /** An id that is not in use. */
  ghost function FreshId(used: set<RangeId>): (id: RangeId)
    ensures id !in used
  {
    FreshExists(used);
    var id :| id !in used;
    id
  }

  lemma FreshExists(used: set<RangeId>)
    ensures exists id: RangeId :: id !in used
  {
    var n := BoundOf(used);
    assert n !in used;
  }

  lemma {:induction false} BoundOf(used: set<RangeId>) returns (n: nat)
    ensures forall id :: id in used ==> id < n
    decreases used
  {
    if used == {} {
      n := 0;
    } else {
      var x :| x in used;
      var m := BoundOf(used - {x});
      n := if x < m then m else x + 1;
      assert forall id :: id in used ==> id == x || id in used - {x};
    }
  }
}
