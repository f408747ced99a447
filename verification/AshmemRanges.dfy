/**
  The unpinned-range tables of the ashmem driver: the ranges, the sorted list that
  each area keeps of its own ranges, the global LRU list and its page counter.

  Tables are values here.  `AshmemDriver` keeps the same tables in mutable fields and
  is proved to change them as these functions say.
 */
module AshmemRanges {

  // One more than the largest size_t (64-bit kernel).
  const WORD: int := 0x1_0000_0000_0000_0000

  type AreaId = nat
  type RangeId = nat
  type FileId = nat

  datatype Option<T> = None | Some(value: T)

  /** One struct ashmem_range. Both ends are inclusive, so pgend + 1 == pgstart is an empty range. */
  datatype Range = Range(asma: AreaId, pgstart: nat, pgend: nat, purged: bool)

  datatype Area = Area(size: nat, file: Option<FileId>, unpinned: seq<RangeId>)

  /** All the state protected by ashmem_mutex. A RangeId stands for the address of a range. */
  datatype Mem = Mem(areas: map<AreaId, Area>, ranges: map<RangeId, Range>, lru: seq<RangeId>, lruCount: nat)

  // ---------- Predicates on one range ----------

  function RangeSize(r: Range): int {
    (r.pgend - r.pgstart + 1) % WORD
  }

  predicate RangeOnLru(r: Range) {
    !r.purged
  }

  predicate PageRangeSubsumesRange(r: Range, start: nat, end: nat) {
    r.pgstart >= start && r.pgend <= end
  }

  predicate PageRangeSubsumedByRange(r: Range, start: nat, end: nat) {
    r.pgstart <= start && r.pgend >= end
  }

  predicate PageInRange(r: Range, page: nat) {
    r.pgstart <= page && r.pgend >= page
  }

  predicate PageRangeInRange(r: Range, start: nat, end: nat) {
    PageInRange(r, start) || PageInRange(r, end) || PageRangeSubsumesRange(r, start, end)
  }

  predicate RangeBeforePage(r: Range, page: nat) {
    r.pgend < page
  }

  // ---------- Invariant ----------

  ghost predicate NoDup<T>(s: seq<T>) {
    forall i, j :: 0 <= i < j < |s| ==> s[i] != s[j]
  }

  ghost predicate WellFormed(r: Range) {
    r.pgstart <= r.pgend + 1 && r.pgend < WORD
  }

  /** `ids` lists ranges of area `a`, each once, from high pages to low, pairwise disjoint. */
  ghost predicate GoodList(R: map<RangeId, Range>, a: AreaId, ids: seq<RangeId>) {
    && (forall i :: 0 <= i < |ids| ==> ids[i] in R && R[ids[i]].asma == a && WellFormed(R[ids[i]]))
    && NoDup(ids)
    && (forall i, j :: 0 <= i < j < |ids| ==> R[ids[j]].pgend < R[ids[i]].pgstart)
  }

  ghost predicate Listed(m: Mem, id: RangeId)
    requires id in m.ranges
  {
    m.ranges[id].asma in m.areas && id in m.areas[m.ranges[id].asma].unpinned
  }

  ghost predicate ListsInv(m: Mem) {
    && (forall a :: a in m.areas ==> GoodList(m.ranges, a, m.areas[a].unpinned))
    && (forall id :: id in m.ranges ==> Listed(m, id))
  }

  /** Total number of pages in the listed ranges, without wrap-around. */
  ghost function Pages(R: map<RangeId, Range>, ids: seq<RangeId>): int
    requires forall i :: 0 <= i < |ids| ==> ids[i] in R
  {
    if ids == [] then 0 else
      var r := R[ids[0]];
      (r.pgend - r.pgstart + 1) + Pages(R, ids[1..])
  }

  /** The LRU list holds each range that is not purged exactly once, and nothing else. */
  ghost predicate OnLruIffNotPurged(R: map<RangeId, Range>, lru: seq<RangeId>) {
    && NoDup(lru)
    && (forall i :: 0 <= i < |lru| ==> lru[i] in R)
    && (forall id :: id in lru <==> id in R && !R[id].purged)
  }

  /** lru_count is the number of pages on the LRU list, in unsigned long arithmetic. */
  ghost predicate LruInv(m: Mem) {
    OnLruIffNotPurged(m.ranges, m.lru) && m.lruCount == Pages(m.ranges, m.lru) % WORD
  }

  ghost predicate Inv(m: Mem) {
    ListsInv(m) && LruInv(m)
  }

  // ---------- Primitives ----------

  /** list_del: the first occurrence of x goes. */
  function Without<T(==)>(s: seq<T>, x: T): seq<T> {
    if s == [] then [] else if s[0] == x then s[1..] else [s[0]] + Without(s[1..], x)
  }

  function LruAdd(m: Mem, id: RangeId): Mem
    requires id in m.ranges
  {
    m.(lru := m.lru + [id], lruCount := (m.lruCount + RangeSize(m.ranges[id])) % WORD)
  }

  function LruDel(m: Mem, id: RangeId): Mem
    requires id in m.ranges
  {
    m.(lru := Without(m.lru, id), lruCount := (m.lruCount - RangeSize(m.ranges[id])) % WORD)
  }

  function SetList(m: Mem, a: AreaId, ids: seq<RangeId>): Mem
    requires a in m.areas
  {
    m.(areas := m.areas[a := m.areas[a].(unpinned := ids)])
  }

  /** range_alloc: the new range goes into a's list just before position `pos`. */
  function RangeAlloc(m: Mem, a: AreaId, pos: nat, purged: bool, start: nat, end: nat, id: RangeId): Mem
    requires a in m.areas && pos <= |m.areas[a].unpinned|
  {
    var ids := m.areas[a].unpinned;
    var m1 := SetList(m.(ranges := m.ranges[id := Range(a, start, end, purged)]), a, ids[..pos] + [id] + ids[pos..]);
    if RangeOnLru(m1.ranges[id]) then LruAdd(m1, id) else m1
  }

  function RangeDel(m: Mem, id: RangeId): Mem
    requires id in m.ranges && m.ranges[id].asma in m.areas
  {
    var a := m.ranges[id].asma;
    var m1 := SetList(m, a, Without(m.areas[a].unpinned, id));
    var m2 := if RangeOnLru(m1.ranges[id]) then LruDel(m1, id) else m1;
    m2.(ranges := m2.ranges - {id})
  }

  function RangeShrink(m: Mem, id: RangeId, start: nat, end: nat): Mem
    requires id in m.ranges
  {
    var pre := RangeSize(m.ranges[id]);
    var m1 := m.(ranges := m.ranges[id := m.ranges[id].(pgstart := start, pgend := end)]);
    if RangeOnLru(m1.ranges[id])
    then m1.(lruCount := (m1.lruCount - (pre - RangeSize(m1.ranges[id])) % WORD) % WORD)
    else m1
  }

  // ---------- Sequence and arithmetic facts ----------

  lemma {:induction false} WithoutIndex<T>(s: seq<T>, i: nat)
    requires NoDup(s) && i < |s|
    ensures Without(s, s[i]) == s[..i] + s[i + 1..]
  {
    if i > 0 {
      WithoutIndex(s[1..], i - 1);
    }
  }

  lemma {:induction false} WithoutMembers<T>(s: seq<T>, x: T)
    requires NoDup(s)
    ensures NoDup(Without(s, x))
    ensures forall y :: y in Without(s, x) <==> y in s && y != x
  {
    if x in s {
      var i :| 0 <= i < |s| && s[i] == x;
      WithoutIndex(s, i);
    } else {
      WithoutAbsent(s, x);
    }
  }

  lemma {:induction false} WithoutAbsent<T>(s: seq<T>, x: T)
    requires x !in s
    ensures Without(s, x) == s
  {
    if s != [] {
      WithoutAbsent(s[1..], x);
    }
  }

  lemma WrapAdd(x: int, y: int)
    ensures (x % WORD + y % WORD) % WORD == (x + y) % WORD
  {
    var d := x / WORD + y / WORD;
    assert x + y == (x % WORD + y % WORD) + WORD * d;
  }

  lemma WrapSub(x: int, y: int)
    ensures (x % WORD - y % WORD) % WORD == (x - y) % WORD
  {
    var d := x / WORD - y / WORD;
    assert x - y == (x % WORD - y % WORD) + WORD * d;
  }

  lemma {:induction false} PagesConcat(R: map<RangeId, Range>, s: seq<RangeId>, t: seq<RangeId>)
    requires forall i :: 0 <= i < |s| ==> s[i] in R
    requires forall i :: 0 <= i < |t| ==> t[i] in R
    ensures Pages(R, s + t) == Pages(R, s) + Pages(R, t)
  {
    if s == [] {
      assert s + t == t;
    } else {
      assert (s + t)[1..] == s[1..] + t;
      PagesConcat(R, s[1..], t);
    }
  }

  lemma {:induction false} PagesFrame(R: map<RangeId, Range>, R': map<RangeId, Range>, s: seq<RangeId>)
    requires forall i :: 0 <= i < |s| ==> s[i] in R && s[i] in R' && R'[s[i]] == R[s[i]]
    ensures Pages(R, s) == Pages(R', s)
  {
    if s != [] {
      PagesFrame(R, R', s[1..]);
    }
  }

  lemma PagesWithout(R: map<RangeId, Range>, s: seq<RangeId>, id: RangeId)
    requires NoDup(s) && id in s && (forall i :: 0 <= i < |s| ==> s[i] in R)
    ensures forall i :: 0 <= i < |Without(s, id)| ==> Without(s, id)[i] in R
    ensures Pages(R, s) == Pages(R, Without(s, id)) + (R[id].pgend - R[id].pgstart + 1)
  {
    hide Pages, NoDup;
    var i :| 0 <= i < |s| && s[i] == id;
    WithoutIndex(s, i);
    PagesTakenOut(R, s, i, Without(s, id));
  }

  lemma PagesTakenOut(R: map<RangeId, Range>, s: seq<RangeId>, i: nat, rest: seq<RangeId>)
    requires i < |s| && (forall j :: 0 <= j < |s| ==> s[j] in R) && rest == s[..i] + s[i + 1..]
    ensures forall j :: 0 <= j < |rest| ==> rest[j] in R
    ensures Pages(R, s) == Pages(R, rest) + (R[s[i]].pgend - R[s[i]].pgstart + 1)
  {
    var front, back := s[..i], s[i + 1..];
    assert s == front + ([s[i]] + back);
    PagesConcat(R, front, [s[i]] + back);
    PagesConcat(R, front, back);
    assert ([s[i]] + back)[1..] == back;
  }

  lemma PagesUpdate(R: map<RangeId, Range>, s: seq<RangeId>, id: RangeId, r: Range)
    requires NoDup(s) && id in s && (forall i :: 0 <= i < |s| ==> s[i] in R)
    ensures Pages(R[id := r], s) - Pages(R, s) == (r.pgend - r.pgstart) - (R[id].pgend - R[id].pgstart)
  {
    PagesWithout(R, s, id);
    PagesWithout(R[id := r], s, id);
    WithoutMembers(s, id);
    PagesFrame(R, R[id := r], Without(s, id));
  }

  // ---------- What the primitives keep: one list ----------

  lemma InsertKeepsGoodList(R: map<RangeId, Range>, a: AreaId, ids: seq<RangeId>, pos: nat, id: RangeId, r: Range)
    requires GoodList(R, a, ids) && pos <= |ids| && id !in R && r.asma == a && WellFormed(r)
    requires forall j :: 0 <= j < pos ==> r.pgend < R[ids[j]].pgstart
    requires forall j :: pos <= j < |ids| ==> R[ids[j]].pgend < r.pgstart
    ensures GoodList(R[id := r], a, ids[..pos] + [id] + ids[pos..])
  {
    var ids' := ids[..pos] + [id] + ids[pos..];
    assert forall j :: 0 <= j < |ids'| ==>
      ids'[j] == if j < pos then ids[j] else if j == pos then id else ids[j - 1];
  }

  lemma RemoveKeepsGoodList(R: map<RangeId, Range>, a: AreaId, ids: seq<RangeId>, i: nat)
    requires GoodList(R, a, ids) && i < |ids|
    ensures GoodList(R - {ids[i]}, a, ids[..i] + ids[i + 1..])
  {
    var ids' := ids[..i] + ids[i + 1..];
    assert forall j :: 0 <= j < |ids'| ==> ids'[j] == ids[if j < i then j else j + 1];
  }

  lemma ShrinkKeepsGoodList(R: map<RangeId, Range>, a: AreaId, ids: seq<RangeId>, i: nat, r: Range)
    requires GoodList(R, a, ids) && i < |ids|
    requires var was := R[ids[i]];
             r.asma == a && was.pgstart <= r.pgstart && r.pgend <= was.pgend && r.pgstart <= r.pgend + 1
    ensures GoodList(R[ids[i] := r], a, ids)
  {
  }

  lemma InsertedAll(ids: seq<RangeId>, pos: nat, id: RangeId)
    requires pos <= |ids|
    ensures forall k :: k in ids[..pos] + [id] + ids[pos..] <==> k == id || k in ids
  {
    assert ids == ids[..pos] + ids[pos..];
  }

  lemma RemovedAll(ids: seq<RangeId>, i: nat)
    requires i < |ids|
    ensures forall k :: k in ids && k != ids[i] ==> k in ids[..i] + ids[i + 1..]
  {
    assert ids == ids[..i] + [ids[i]] + ids[i + 1..];
  }

  // ---------- What the primitives keep: all lists ----------

  lemma AreaList(m: Mem, a: AreaId)
    requires ListsInv(m) && a in m.areas
    ensures GoodList(m.ranges, a, m.areas[a].unpinned)
  {
  }

  lemma OwnListed(m: Mem, id: RangeId)
    requires ListsInv(m) && id in m.ranges
    ensures m.ranges[id].asma in m.areas && id in m.areas[m.ranges[id].asma].unpinned
  {
    hide GoodList;
    assert Listed(m, id);
  }

  /** Replacing a's list by a good one, while other areas keep their ranges. */
  lemma ReplacedListKeepsInv(m: Mem, m': Mem, a: AreaId)
    requires ListsInv(m) && a in m.areas
    requires m'.areas.Keys == m.areas.Keys && (forall b :: b in m.areas && b != a ==> m'.areas[b] == m.areas[b])
    requires GoodList(m'.ranges, a, m'.areas[a].unpinned)
    requires forall k :: k in m.ranges && m.ranges[k].asma != a ==> k in m'.ranges && m'.ranges[k] == m.ranges[k]
    requires forall k :: k in m'.ranges && k !in m'.areas[a].unpinned ==>
      k in m.ranges && m.ranges[k].asma != a && m'.ranges[k] == m.ranges[k]
    ensures ListsInv(m')
  {
    forall b | b in m'.areas
      ensures GoodList(m'.ranges, b, m'.areas[b].unpinned)
    {
      if b != a {
        assert GoodList(m.ranges, b, m.areas[b].unpinned);
      }
    }
    forall k | k in m'.ranges
      ensures Listed(m', k)
    {
      if k !in m'.areas[a].unpinned {
        assert Listed(m, k);
      }
    }
  }

  /** In a consistent table an area's ranges are exactly those on its list. */
  lemma OwnList(m: Mem, id: RangeId)
    requires ListsInv(m) && id in m.ranges
    ensures m.ranges[id].asma in m.areas
    ensures exists i :: 0 <= i < |m.areas[m.ranges[id].asma].unpinned| && m.areas[m.ranges[id].asma].unpinned[i] == id
    ensures WellFormed(m.ranges[id])
  {
    assert Listed(m, id);
    assert GoodList(m.ranges, m.ranges[id].asma, m.areas[m.ranges[id].asma].unpinned);
  }

  lemma AllocKeepsLists(m: Mem, m': Mem, a: AreaId, pos: nat, r: Range, id: RangeId)
    requires ListsInv(m) && a in m.areas && pos <= |m.areas[a].unpinned| && id !in m.ranges
    requires r.asma == a && WellFormed(r)
    requires forall j :: 0 <= j < pos ==>
      m.areas[a].unpinned[j] in m.ranges && r.pgend < m.ranges[m.areas[a].unpinned[j]].pgstart
    requires forall j :: pos <= j < |m.areas[a].unpinned| ==>
      m.areas[a].unpinned[j] in m.ranges && m.ranges[m.areas[a].unpinned[j]].pgend < r.pgstart
    requires m'.ranges == m.ranges[id := r]
    requires m'.areas == SetList(m, a, m.areas[a].unpinned[..pos] + [id] + m.areas[a].unpinned[pos..]).areas
    ensures ListsInv(m')
  {
    hide GoodList;
    var ids := m.areas[a].unpinned;
    AreaList(m, a);
    InsertedAll(ids, pos, id);
    InsertHere(m, a, pos, r, id);
    forall k | k in m.ranges && m.ranges[k].asma == a
      ensures k in ids
    {
      OwnListed(m, k);
    }
    ReplacedListKeepsInv(m, m', a);
  }

  lemma InsertHere(m: Mem, a: AreaId, pos: nat, r: Range, id: RangeId)
    requires ListsInv(m) && a in m.areas && pos <= |m.areas[a].unpinned| && id !in m.ranges
    requires r.asma == a && WellFormed(r)
    requires forall j :: 0 <= j < pos ==>
      m.areas[a].unpinned[j] in m.ranges && r.pgend < m.ranges[m.areas[a].unpinned[j]].pgstart
    requires forall j :: pos <= j < |m.areas[a].unpinned| ==>
      m.areas[a].unpinned[j] in m.ranges && m.ranges[m.areas[a].unpinned[j]].pgend < r.pgstart
    ensures GoodList(m.ranges[id := r], a, m.areas[a].unpinned[..pos] + [id] + m.areas[a].unpinned[pos..])
  {
    var ids := m.areas[a].unpinned;
    AreaList(m, a);
    hide ListsInv, GoodList;
    InsertKeepsGoodList(m.ranges, a, ids, pos, id, r);
  }

  lemma DelKeepsLists(m: Mem, m': Mem, a: AreaId, i: nat)
    requires ListsInv(m) && a in m.areas && i < |m.areas[a].unpinned|
    requires m'.ranges == m.ranges - {m.areas[a].unpinned[i]}
    requires m'.areas == SetList(m, a, m.areas[a].unpinned[..i] + m.areas[a].unpinned[i + 1..]).areas
    ensures ListsInv(m')
  {
    hide GoodList;
    var ids := m.areas[a].unpinned;
    AreaList(m, a);
    RemovedAll(ids, i);
    RemoveKeepsGoodList(m.ranges, a, ids, i);
    forall k | k in m.ranges && m.ranges[k].asma == a
      ensures k in ids
    {
      OwnListed(m, k);
    }
    ListedHere(m, a, i);
    ReplacedListKeepsInv(m, m', a);
  }

  lemma ListedHere(m: Mem, a: AreaId, i: nat)
    requires ListsInv(m) && a in m.areas && i < |m.areas[a].unpinned|
    ensures m.areas[a].unpinned[i] in m.ranges && m.ranges[m.areas[a].unpinned[i]].asma == a
  {
    AreaList(m, a);
  }

  lemma ShrinkKeepsLists(m: Mem, m': Mem, a: AreaId, i: nat, r: Range)
    requires ListsInv(m) && a in m.areas && i < |m.areas[a].unpinned|
    requires var was := m.ranges[m.areas[a].unpinned[i]];
             r.asma == a && was.pgstart <= r.pgstart && r.pgend <= was.pgend && r.pgstart <= r.pgend + 1
    requires m'.ranges == m.ranges[m.areas[a].unpinned[i] := r] && m'.areas == m.areas
    ensures ListsInv(m')
  {
    hide GoodList;
    AreaList(m, a);
    ShrinkKeepsGoodList(m.ranges, a, m.areas[a].unpinned, i, r);
    ListedHere(m, a, i);
    forall k | k in m.ranges && m.ranges[k].asma == a
      ensures k in m.areas[a].unpinned
    {
      OwnListed(m, k);
    }
    ReplacedListKeepsInv(m, m', a);
  }

  // ---------- What the primitives keep: the LRU list ----------

  lemma LruAfterAlloc(R: map<RangeId, Range>, lru: seq<RangeId>, id: RangeId, r: Range)
    requires OnLruIffNotPurged(R, lru) && id !in R
    ensures r.purged ==> OnLruIffNotPurged(R[id := r], lru) && Pages(R[id := r], lru) == Pages(R, lru)
    ensures !r.purged ==> OnLruIffNotPurged(R[id := r], lru + [id])
    ensures !r.purged ==>
      Pages(R[id := r], lru + [id]) % WORD == (Pages(R, lru) % WORD + RangeSize(r)) % WORD
  {
    PagesFrame(R, R[id := r], lru);
    if !r.purged {
      PagesConcat(R[id := r], lru, [id]);
      assert (lru + [id])[|lru|] == id;
      WrapAdd(Pages(R, lru), r.pgend - r.pgstart + 1);
    }
  }

  lemma LruAfterDel(R: map<RangeId, Range>, lru: seq<RangeId>, id: RangeId)
    requires OnLruIffNotPurged(R, lru) && id in R
    ensures R[id].purged ==> OnLruIffNotPurged(R - {id}, lru) && Pages(R - {id}, lru) == Pages(R, lru)
    ensures !R[id].purged ==> OnLruIffNotPurged(R - {id}, Without(lru, id))
    ensures !R[id].purged ==>
      Pages(R - {id}, Without(lru, id)) % WORD == (Pages(R, lru) % WORD - RangeSize(R[id])) % WORD
  {
    if R[id].purged {
      PagesFrame(R, R - {id}, lru);
    } else {
      WithoutMembers(lru, id);
      PagesWithout(R, lru, id);
      PagesFrame(R, R - {id}, Without(lru, id));
      WrapSub(Pages(R, lru), R[id].pgend - R[id].pgstart + 1);
    }
  }

  lemma LruAfterShrink(R: map<RangeId, Range>, lru: seq<RangeId>, id: RangeId, r: Range)
    requires OnLruIffNotPurged(R, lru) && id in R && r.purged == R[id].purged
    ensures OnLruIffNotPurged(R[id := r], lru)
    ensures r.purged ==> Pages(R[id := r], lru) == Pages(R, lru)
    ensures !r.purged ==>
      Pages(R[id := r], lru) % WORD == (Pages(R, lru) % WORD - (RangeSize(R[id]) - RangeSize(r)) % WORD) % WORD
  {
    if r.purged {
      PagesFrame(R, R[id := r], lru);
    } else {
      PagesUpdate(R, lru, id, r);
      var before, after := R[id].pgend - R[id].pgstart + 1, r.pgend - r.pgstart + 1;
      WrapSub(before, after);
      WrapSub(Pages(R, lru), before - after);
    }
  }

  // ---------- What the primitives keep: everything ----------

  lemma AllocKeepsInv(m: Mem, a: AreaId, pos: nat, purged: bool, start: nat, end: nat, id: RangeId)
    requires Inv(m) && a in m.areas && pos <= |m.areas[a].unpinned| && id !in m.ranges
    requires WellFormed(Range(a, start, end, purged))
    requires forall j :: 0 <= j < pos ==>
      m.areas[a].unpinned[j] in m.ranges && end < m.ranges[m.areas[a].unpinned[j]].pgstart
    requires forall j :: pos <= j < |m.areas[a].unpinned| ==>
      m.areas[a].unpinned[j] in m.ranges && m.ranges[m.areas[a].unpinned[j]].pgend < start
    ensures Inv(RangeAlloc(m, a, pos, purged, start, end, id))
  {
    hide GoodList, OnLruIffNotPurged, ListsInv, Pages;
    var m' := RangeAlloc(m, a, pos, purged, start, end, id);
    var r := Range(a, start, end, purged);
    AllocKeepsLists(m, m', a, pos, r, id);
    LruAfterAlloc(m.ranges, m.lru, id, r);
  }

  lemma DelShape(m: Mem, a: AreaId, i: nat)
    requires ListsInv(m) && a in m.areas && i < |m.areas[a].unpinned|
    ensures m.areas[a].unpinned[i] in m.ranges && m.ranges[m.areas[a].unpinned[i]].asma == a
    ensures var ids := m.areas[a].unpinned;
            var m' := RangeDel(m, ids[i]);
            && m'.areas == SetList(m, a, ids[..i] + ids[i + 1..]).areas
            && m'.ranges == m.ranges - {ids[i]}
  {
    assert GoodList(m.ranges, a, m.areas[a].unpinned);
    WithoutIndex(m.areas[a].unpinned, i);
  }

  lemma DelKeepsInv(m: Mem, a: AreaId, i: nat)
    requires Inv(m) && a in m.areas && i < |m.areas[a].unpinned|
    ensures m.areas[a].unpinned[i] in m.ranges && m.ranges[m.areas[a].unpinned[i]].asma == a
    ensures Inv(RangeDel(m, m.areas[a].unpinned[i]))
  {
    hide GoodList, OnLruIffNotPurged, ListsInv, Pages;
    DelShape(m, a, i);
    var id := m.areas[a].unpinned[i];
    var m' := RangeDel(m, id);
    DelKeepsLists(m, m', a, i);
    LruAfterDel(m.ranges, m.lru, id);
  }

  lemma ShrinkKeepsInv(m: Mem, a: AreaId, i: nat, start: nat, end: nat)
    requires Inv(m) && a in m.areas && i < |m.areas[a].unpinned| && m.areas[a].unpinned[i] in m.ranges
    requires var r := m.ranges[m.areas[a].unpinned[i]]; r.pgstart <= start && end <= r.pgend && start <= end + 1
    ensures var id := m.areas[a].unpinned[i];
            var m' := RangeShrink(m, id, start, end);
            && Inv(m')
            && m'.areas == m.areas
            && m'.ranges == m.ranges[id := m.ranges[id].(pgstart := start, pgend := end)]
  {
    var id := m.areas[a].unpinned[i];
    assert GoodList(m.ranges, a, m.areas[a].unpinned);
    var m' := RangeShrink(m, id, start, end);
    ShrinkKeepsLists(m, m', a, i, m'.ranges[id]);
    LruAfterShrink(m.ranges, m.lru, id, m'.ranges[id]);
  }
}
