/** ashmem_shrink_scan when no other thread comes between: every trylock succeeds. */
module AshmemShrinking {
  import opened AshmemRanges
  import opened AshmemPinning
  import opened AshmemIoctl

  /** The scan loop; nr is the unsigned nr_to_scan, freed the unsigned page total. */
  function Scan(m: Mem, nr: nat, freed: nat): (Mem, nat)
    requires forall i :: 0 <= i < |m.lru| ==> m.lru[i] in m.ranges
    requires NoDup(m.lru)
    decreases |m.lru|
  {
    if m.lru == [] then (m, freed) else
      WithoutIndex(m.lru, 0);
      var m1 := MarkOldest(m);
      var freed1 := (freed + RangeSize(m.ranges[m.lru[0]])) % WORD;
      var nr1 := (nr - 1) % WORD;
      if nr1 == 0 then (m1, freed1) else Scan(m1, nr1, freed1)
  }

  /** How many ranges a scan purges; nr_to_scan == 0 wraps around and so stands for 2^64. */
  function Quota(m: Mem, nr: nat): (k: nat)
    ensures k <= |m.lru|
  {
    var n := if nr == 0 then WORD else nr;
    if n < |m.lru| then n else |m.lru|
  }

  /** The tables after the first k ranges of the LRU list were purged. */
  ghost predicate PrefixPurged(m: Mem, m': Mem, k: nat)
    requires k <= |m.lru|
  {
    && m'.areas == m.areas && m'.lru == m.lru[k..] && m'.ranges.Keys == m.ranges.Keys
    && (forall id :: id in m.ranges ==>
          m'.ranges[id] == m.ranges[id].(purged := m.ranges[id].purged || id in m.lru[..k]))
  }

  /**
    A scan purges the oldest ranges first, as many as nr_to_scan allows, touches nothing else,
    and returns the number of pages by which lru_count dropped.
   */
  lemma {:induction false} ScanPurgesOldest(m: Mem, nr: nat, freed: nat)
    requires Inv(m) && nr < WORD && freed < WORD
    ensures Inv(Scan(m, nr, freed).0) && PrefixPurged(m, Scan(m, nr, freed).0, Quota(m, nr))
    ensures Scan(m, nr, freed).1 == (freed + m.lruCount - Scan(m, nr, freed).0.lruCount) % WORD
    decreases |m.lru|
  {
    hide ListsInv, LruInv, MarkOldest, PrefixPurged, RangeSize, Quota;
    InvLru(m);
    if m.lru == [] {
      QuotaOfNothing(m, nr);
      NothingPurged(m);
    } else {
      MarkOldestKeepsInv(m);
      MarkIsPrefix(m);
      var m1 := MarkOldest(m);
      QuotaStep(m, m1, nr);
      var size := RangeSize(m.ranges[m.lru[0]]);
      var freed1, nr1 := (freed + size) % WORD, (nr - 1) % WORD;
      CountDrop(freed, m.lruCount, size, Scan(m, nr, freed).0.lruCount);
      if nr1 != 0 {
        ScanPurgesOldest(m1, nr1, freed1);
        PrefixGrows(m, m1, Scan(m1, nr1, freed1).0, Quota(m1, nr1));
      }
    }
  }

  lemma QuotaOfNothing(m: Mem, nr: nat)
    requires m.lru == []
    ensures Quota(m, nr) == 0
  {
  }

  lemma QuotaStep(m: Mem, m1: Mem, nr: nat)
    requires m.lru != [] && m1.lru == m.lru[1..] && nr < WORD
    ensures var nr1 := (nr - 1) % WORD;
            Quota(m, nr) == if nr1 == 0 then 1 else Quota(m1, nr1) + 1
  {
  }

  lemma InvLru(m: Mem)
    requires Inv(m)
    ensures OnLruIffNotPurged(m.ranges, m.lru) && m.lruCount < WORD
  {
  }

  lemma NothingPurged(m: Mem)
    requires m.lru == []
    ensures PrefixPurged(m, m, 0)
  {
  }

  lemma MarkIsPrefix(m: Mem)
    requires OnLruIffNotPurged(m.ranges, m.lru) && m.lru != []
    ensures PrefixPurged(m, MarkOldest(m), 1)
    ensures MarkOldest(m).lruCount == (m.lruCount - RangeSize(m.ranges[m.lru[0]])) % WORD
  {
    WithoutIndex(m.lru, 0);
  }

  lemma PrefixGrows(m: Mem, m1: Mem, m': Mem, k: nat)
    requires m.lru != [] && PrefixPurged(m, m1, 1) && k <= |m1.lru| && PrefixPurged(m1, m', k)
    ensures k + 1 <= |m.lru| && PrefixPurged(m, m', k + 1)
  {
    assert m.lru[..k + 1] == m.lru[..1] + m1.lru[..k];
    assert m1.lru[k..] == m.lru[k + 1..];
  }

  lemma CountDrop(freed: int, count: int, size: int, left: int)
    ensures ((freed + size) % WORD + (count - size) % WORD - left) % WORD == (freed + count - left) % WORD
  {
    var q := (freed + size) / WORD + (count - size) / WORD;
    assert (freed + size) % WORD + (count - size) % WORD - left == (freed + count - left) - WORD * q;
  }

  lemma {:induction false} PagesNotNegative(R: map<RangeId, Range>, s: seq<RangeId>)
    requires forall i :: 0 <= i < |s| ==> s[i] in R && WellFormed(R[s[i]])
    ensures Pages(R, s) >= 0
  {
    if s != [] {
      PagesNotNegative(R, s[1..]);
    }
  }

  lemma {:induction false} PagesIgnoreFlags(R: map<RangeId, Range>, R': map<RangeId, Range>, s: seq<RangeId>)
    requires forall i :: 0 <= i < |s| ==>
      s[i] in R && s[i] in R' && R'[s[i]].pgstart == R[s[i]].pgstart && R'[s[i]].pgend == R[s[i]].pgend
    ensures Pages(R, s) == Pages(R', s)
  {
    if s != [] {
      PagesIgnoreFlags(R, R', s[1..]);
    }
  }

  lemma TailHasFewerPages(R: map<RangeId, Range>, R': map<RangeId, Range>, s: seq<RangeId>, k: nat)
    requires k <= |s| && forall i :: 0 <= i < |s| ==>
      s[i] in R && WellFormed(R[s[i]]) && s[i] in R'
      && R'[s[i]].pgstart == R[s[i]].pgstart && R'[s[i]].pgend == R[s[i]].pgend
    ensures 0 <= Pages(R', s[k..]) <= Pages(R, s)
  {
    assert s == s[..k] + s[k..];
    PagesConcat(R, s[..k], s[k..]);
    PagesNotNegative(R, s[..k]);
    PagesNotNegative(R, s[k..]);
    PagesIgnoreFlags(R, R', s[k..]);
  }

  lemma PrefixLowersCount(m: Mem, m': Mem, k: nat)
    requires LruInv(m) && LruInv(m') && k <= |m.lru| && PrefixPurged(m, m', k) && Pages(m.ranges, m.lru) < WORD
    requires forall id :: id in m.ranges ==> WellFormed(m.ranges[id])
    ensures m'.lruCount <= m.lruCount
  {
    hide Pages;
    TailHasFewerPages(m.ranges, m'.ranges, m.lru, k);
  }

  /** With fewer than 2^64 pages on the LRU list the result is the drop in lru_count itself. */
  lemma ScanReturnsDrop(m: Mem, nr: nat)
    requires Inv(m) && nr < WORD && Pages(m.ranges, m.lru) < WORD
    ensures Scan(m, nr, 0).1 == m.lruCount - Scan(m, nr, 0).0.lruCount
  {
    hide ListsInv, LruInv, Scan, Pages, PrefixPurged;
    InvLru(m);
    ScanPurgesOldest(m, nr, 0);
    InvLru(Scan(m, nr, 0).0);
    AllWellFormed(m);
    PrefixLowersCount(m, Scan(m, nr, 0).0, Quota(m, nr));
  }

  // ---------- Ranges or pages ----------

  lemma PrefixFreesItsPages(m: Mem, m': Mem, k: nat)
    requires LruInv(m) && LruInv(m') && k <= |m.lru| && PrefixPurged(m, m', k) && Pages(m.ranges, m.lru) < WORD
    requires forall id :: id in m.ranges ==> WellFormed(m.ranges[id])
    ensures m.lruCount - m'.lruCount == Pages(m.ranges, m.lru[..k])
  {
    hide Pages, NoDup, PrefixPurged;
    assert m.lru == m.lru[..k] + m.lru[k..];
    PagesConcat(m.ranges, m.lru[..k], m.lru[k..]);
    PagesNotNegative(m.ranges, m.lru[..k]);
    PagesNotNegative(m.ranges, m.lru[k..]);
    TailPages(m, m', k);
    CountIsPages(m);
    CountIsPages(m');
  }

  lemma TailPages(m: Mem, m': Mem, k: nat)
    requires LruInv(m) && k <= |m.lru| && PrefixPurged(m, m', k)
    ensures m'.lru == m.lru[k..] && (forall i :: 0 <= i < |m'.lru| ==> m'.lru[i] in m.ranges && m'.lru[i] in m'.ranges)
    ensures Pages(m'.ranges, m'.lru) == Pages(m.ranges, m'.lru)
  {
    hide Pages, NoDup;
    PagesIgnoreFlags(m.ranges, m'.ranges, m.lru[k..]);
  }

  lemma CountIsPages(m: Mem)
    requires LruInv(m) && 0 <= Pages(m.ranges, m.lru) < WORD
    ensures m.lruCount == Pages(m.ranges, m.lru)
  {
    hide Pages, NoDup;
  }

  predicate OnePage(r: Range) { r.pgstart == r.pgend }

  lemma {:induction false} AtLeastOnePageEach(R: map<RangeId, Range>, s: seq<RangeId>)
    requires forall i :: 0 <= i < |s| ==> s[i] in R && R[s[i]].pgstart <= R[s[i]].pgend
    ensures Pages(R, s) >= |s|
    ensures Pages(R, s) == |s| <==> forall i :: 0 <= i < |s| ==> OnePage(R[s[i]])
  {
    if s != [] {
      AtLeastOnePageEach(R, s[1..]);
      assert forall i :: 0 < i < |s| ==> s[i] == s[1..][i - 1];
    }
  }

  /**
    A scan frees at least nr_to_scan pages if the LRU list has as many ranges and none is empty,
    and exactly nr_to_scan pages exactly if each range it takes is a single page: the loop counts
    ranges.
   */
  lemma ScanFreesPagesIff(m: Mem, nr: nat)
    requires Inv(m) && Pages(m.ranges, m.lru) < WORD && 1 <= nr <= |m.lru| && nr < WORD
    requires forall i :: 0 <= i < nr ==> m.ranges[m.lru[i]].pgstart <= m.ranges[m.lru[i]].pgend
    ensures Scan(m, nr, 0).1 >= nr
    ensures Scan(m, nr, 0).1 == nr <==> forall i :: 0 <= i < nr ==> OnePage(m.ranges[m.lru[i]])
  {
    hide ListsInv, LruInv, Scan, Pages, PrefixPurged;
    InvLru(m);
    ScanPurgesOldest(m, nr, 0);
    ScanReturnsDrop(m, nr);
    AllWellFormed(m);
    PrefixFreesItsPages(m, Scan(m, nr, 0).0, nr);
    var s := m.lru[..nr];
    assert forall i :: 0 <= i < nr ==> s[i] == m.lru[i];
    AtLeastOnePageEach(m.ranges, s);
  }

  /** The scan the comment describes: the same loop, but it stops as soon as `goal` pages are freed. */
  function PageScan(m: Mem, goal: nat, freed: nat): (Mem, nat)
    requires forall i :: 0 <= i < |m.lru| ==> m.lru[i] in m.ranges
    requires NoDup(m.lru)
    decreases |m.lru|
  {
    if m.lru == [] then (m, freed) else
      WithoutIndex(m.lru, 0);
      var m1 := MarkOldest(m);
      var freed1 := (freed + RangeSize(m.ranges[m.lru[0]])) % WORD;
      if freed1 >= goal then (m1, freed1) else PageScan(m1, goal, freed1)
  }

  /** The first k ranges of the LRU list hold at least one page each. */
  ghost predicate FirstSolid(m: Mem, k: nat)
    requires k <= |m.lru| && forall i :: 0 <= i < |m.lru| ==> m.lru[i] in m.ranges
  {
    forall i :: 0 <= i < k ==> m.ranges[m.lru[i]].pgstart <= m.ranges[m.lru[i]].pgend
  }

  /** The pages of the first k ranges of the LRU list. */
  ghost function FirstPages(m: Mem, k: nat): int
    requires k <= |m.lru| && forall i :: 0 <= i < |m.lru| ==> m.lru[i] in m.ranges
  {
    Pages(m.ranges, m.lru[..k])
  }

  lemma FirstStep(m: Mem, m1: Mem, k: nat)
    requires m.lru != [] && PrefixPurged(m, m1, 1) && k < |m.lru|
    requires forall i :: 0 <= i < |m.lru| ==> m.lru[i] in m.ranges
    ensures m1.lru == m.lru[1..] && (forall i :: 0 <= i < |m1.lru| ==> m1.lru[i] in m1.ranges)
    ensures var r := m.ranges[m.lru[0]]; FirstPages(m, k + 1) == (r.pgend - r.pgstart + 1) + FirstPages(m1, k)
    ensures FirstSolid(m, k + 1) <==> m.ranges[m.lru[0]].pgstart <= m.ranges[m.lru[0]].pgend && FirstSolid(m1, k)
  {
    var s, t := m.lru[..k + 1], m1.lru[..k];
    assert s[1..] == t && s[0] == m.lru[0];
    assert forall i :: 0 <= i < k ==> m1.lru[i] == m.lru[i + 1];
    PagesIgnoreFlags(m.ranges, m1.ranges, t);
  }

  lemma FirstPagesGrow(m: Mem, k: nat)
    requires k <= |m.lru| && (forall i :: 0 <= i < |m.lru| ==> m.lru[i] in m.ranges && WellFormed(m.ranges[m.lru[i]]))
    ensures 0 <= FirstPages(m, k) <= FirstPages(m, |m.lru|)
  {
    var s := m.lru[..|m.lru|];
    assert s == s[..k] + s[k..] && s[..k] == m.lru[..k];
    PagesConcat(m.ranges, s[..k], s[k..]);
    PagesNotNegative(m.ranges, s[..k]);
    PagesNotNegative(m.ranges, s[k..]);
  }

  /** The scans stop together: not before the k-th range by pages, and then by pages or for want of ranges. */
  ghost predicate StopTogether(m: Mem, k: nat, goal: int)
    requires 0 < k <= |m.lru| && forall i :: 0 <= i < |m.lru| ==> m.lru[i] in m.ranges
  {
    FirstPages(m, k - 1) < goal && (k == |m.lru| || FirstPages(m, k) >= goal)
  }

  lemma {:induction false} ScansAgreeFrom(m: Mem, nr: nat, goal: nat, freed: nat)
    requires Inv(m) && 1 <= nr < WORD && freed < goal && freed + FirstPages(m, |m.lru|) < WORD
    ensures m.lru == [] ==> Scan(m, nr, freed) == PageScan(m, goal, freed)
    ensures m.lru != [] ==> Quota(m, nr) > 0
    ensures m.lru != [] ==>
      (Scan(m, nr, freed) == PageScan(m, goal, freed) <==> StopTogether(m, Quota(m, nr), goal - freed))
    decreases |m.lru|
  {
    hide ListsInv, LruInv, MarkOldest, Quota, Pages, FirstPages, Scan, PageScan, RangeSize, NoDup;
    InvLru(m);
    if m.lru == [] {
      NothingToScan(m, nr, goal, freed);
    } else {
      var r, m1 := m.ranges[m.lru[0]], MarkOldest(m);
      var f1 := freed + (r.pgend - r.pgstart + 1);
      TakeOne(m, nr);
      ScanSteps(m, nr, goal, freed);
      PageScanTakes(m1, goal, f1);
      if nr > 1 && f1 < goal {
        ScansAgreeFrom(m1, nr - 1, goal, f1);
      } else if nr > 1 {
        ScanTakes(m1, nr - 1, f1);
      }
    }
  }

  lemma NothingToScan(m: Mem, nr: nat, goal: nat, freed: nat)
    requires Inv(m) && m.lru == []
    ensures Scan(m, nr, freed) == PageScan(m, goal, freed) == (m, freed)
  {
  }

  /** The scan by pages takes at least one range if there is any. */
  lemma {:induction false} PageScanTakes(m: Mem, goal: nat, freed: nat)
    requires Inv(m)
    ensures m.lru != [] ==> |PageScan(m, goal, freed).0.lru| < |m.lru|
    ensures m.lru == [] ==> PageScan(m, goal, freed) == (m, freed)
    decreases |m.lru|
  {
    hide ListsInv, LruInv, MarkOldest, RangeSize, NoDup;
    InvLru(m);
    if m.lru != [] {
      MarkOldestKeepsInv(m);
      InvLru(MarkOldest(m));
      PageScanTakes(MarkOldest(m), goal, (freed + RangeSize(m.ranges[m.lru[0]])) % WORD);
    }
  }

  /** The quotas and pages of a list and of the list without its head. */
  lemma TakeOne(m: Mem, nr: nat)
    requires Inv(m) && m.lru != [] && 1 <= nr < WORD
    ensures var m1, r := MarkOldest(m), m.ranges[m.lru[0]];
            var k, size := Quota(m, nr) - 1, r.pgend - r.pgstart + 1;
            && Inv(m1) && m1.lru == m.lru[1..] && size >= 0 && k >= 0
            && k == (if nr == 1 then 0 else Quota(m1, nr - 1))
            && FirstPages(m, k + 1) == size + FirstPages(m1, k)
            && FirstPages(m, k) == (if k == 0 then 0 else size + FirstPages(m1, k - 1))
            && FirstPages(m, |m.lru|) == size + FirstPages(m1, |m1.lru|) && FirstPages(m1, |m1.lru|) >= 0
            && FirstPages(m1, 0) == 0 && (k > 0 ==> FirstPages(m1, k - 1) >= 0) && (nr > 1 && k == 0 ==> m1.lru == [])
  {
    hide ListsInv, LruInv, MarkOldest, PrefixPurged, Quota, Pages, FirstSolid, FirstPages, RangeSize, NoDup;
    InvLru(m);
    AllWellFormed(m);
    var m1 := MarkOldest(m);
    MarkOldestKeepsInv(m);
    MarkIsPrefix(m);
    QuotaStep(m, m1, nr);
    QuotaIsPositive(m, nr);
    InvLru(m1);
    AllWellFormed(m1);
    var k := Quota(m, nr) - 1;
    FirstStep(m, m1, k);
    FirstStep(m, m1, |m1.lru|);
    FirstPagesGrow(m1, k);
    NoneFirst(m);
    NoneFirst(m1);
    if k > 0 {
      FirstStep(m, m1, k - 1);
      FirstPagesGrow(m1, k - 1);
    } else if nr > 1 {
      QuotaIsPositive(m1, nr - 1);
    }
  }

  /** One turn of either loop, without wrap-around. */
  lemma ScanSteps(m: Mem, nr: nat, goal: nat, freed: nat)
    requires Inv(m) && m.lru != [] && 1 <= nr < WORD
    requires var r := m.ranges[m.lru[0]]; r.pgstart <= r.pgend + 1 && freed + (r.pgend - r.pgstart + 1) < WORD
    ensures var m1, r := MarkOldest(m), m.ranges[m.lru[0]];
            var f1 := freed + (r.pgend - r.pgstart + 1);
            && Inv(m1)
            && Scan(m, nr, freed) == (if nr == 1 then (m1, f1) else Scan(m1, nr - 1, f1))
            && PageScan(m, goal, freed) == (if f1 >= goal then (m1, f1) else PageScan(m1, goal, f1))
  {
    hide ListsInv, LruInv, MarkOldest, RangeSize, NoDup;
    InvLru(m);
    MarkOldestKeepsInv(m);
    InvLru(MarkOldest(m));
    NoWrap(m.ranges[m.lru[0]], nr, freed);
  }

  lemma NoWrap(r: Range, nr: nat, freed: nat)
    requires 1 <= nr < WORD && r.pgstart <= r.pgend + 1 && freed + (r.pgend - r.pgstart + 1) < WORD
    ensures (freed + RangeSize(r)) % WORD == freed + (r.pgend - r.pgstart + 1) && (nr - 1) % WORD == nr - 1
  {
  }

  lemma NoneFirst(m: Mem)
    requires forall i :: 0 <= i < |m.lru| ==> m.lru[i] in m.ranges
    ensures FirstPages(m, 0) == 0
  {
  }

  lemma QuotaIsPositive(m: Mem, nr: nat)
    requires 1 <= nr
    ensures Quota(m, nr) == 0 <==> m.lru == []
  {
  }

  /** A scan leaves the LRU list shorter by its quota. */
  lemma ScanTakes(m: Mem, nr: nat, freed: nat)
    requires Inv(m) && 1 <= nr < WORD && freed < WORD
    ensures |Scan(m, nr, freed).0.lru| == |m.lru| - Quota(m, nr) && (m.lru != [] ==> Quota(m, nr) > 0)
    ensures m.lru == [] ==> Scan(m, nr, freed) == (m, freed)
  {
    hide ListsInv, LruInv;
    ScanPurgesOldest(m, nr, freed);
  }

  /**
    The loop stops where the comment says it does exactly if the ranges it takes hold at least
    nr_to_scan pages, or are all there are, and without the last one hold fewer.
   */
  lemma ScanCountsPagesIff(m: Mem, nr: nat)
    requires Inv(m) && 1 <= nr < WORD && Pages(m.ranges, m.lru) < WORD
    ensures Scan(m, nr, 0) == PageScan(m, nr, 0) <==>
            m.lru == [] || (Quota(m, nr) > 0 && StopTogether(m, Quota(m, nr), nr))
  {
    assert m.lru[..|m.lru|] == m.lru;
    ScansAgreeFrom(m, nr, nr, 0);
  }

  /** With enough ranges and none of them empty, that is: exactly if all of them but the last are single pages. */
  lemma ScanCountsSinglesIff(m: Mem, nr: nat)
    requires Inv(m) && 1 <= nr <= |m.lru| && nr < WORD && FirstSolid(m, nr) && Pages(m.ranges, m.lru) < WORD
    ensures Scan(m, nr, 0) == PageScan(m, nr, 0) <==> forall i :: 0 <= i < nr - 1 ==> OnePage(m.ranges[m.lru[i]])
  {
    hide ListsInv, Scan, PageScan;
    ScanCountsPagesIff(m, nr);
    var s, t := m.lru[..nr - 1], m.lru[..nr];
    assert forall i :: 0 <= i < nr - 1 ==> s[i] == m.lru[i];
    assert forall i :: 0 <= i < nr ==> t[i] == m.lru[i];
    AtLeastOnePageEach(m.ranges, s);
    AtLeastOnePageEach(m.ranges, t);
  }
}
