/** Over every run the LRU list is ordered by age, so the range a shrinker takes is the least recently unpinned one. */
module AshmemAge {
  import opened AshmemRanges
  import opened AshmemPinning
  import opened AshmemRequest
  import opened AshmemIoctl
  import opened AshmemProtocol
  import opened AshmemLruOrder

  /** The state of the run since which the range has been on the LRU list without a break. */
  ghost function Since(tr: seq<Sys>, i: nat, id: RangeId): (k: nat)
    requires i < |tr| && id in tr[i].mem.lru
    ensures k <= i
    decreases i
  {
    if i == 0 || id !in tr[i - 1].mem.lru then i else Since(tr, i - 1, id)
  }

  /** What a step does to the LRU list: ranges leave, the others keep their order, and at most one joins at the end. */
  ghost predicate StepAged(s: Sys, step: Step, fresh': RangeId)
    requires Enabled(s, step)
  {
    fresh' !in s.mem.lru && Aged(s.mem.lru, Apply(s, step).mem.lru, fresh')
    && (fresh' in Apply(s, step).mem.lru ==> step.Serve? && step.fresh' == fresh')
  }

  lemma StepAges(s: Sys, step: Step) returns (fresh': RangeId)
    requires SysInv(s) && Enabled(s, step)
    ensures StepAged(s, step, fresh')
  {
    hide Aged, ListsInv, BoundsInv, FilesInv, LockInv, CountInv, HolesInv, LostInv, PinUnpin, MarkOldest, NoDup,
         Pages, DropRanges;
    var m := s.mem;
    if step.Serve? {
      var th := s.threads[step.t];
      fresh' := step.fresh';
      LruHasNot(m, fresh');
      RequestKeepsAge(m, th.asma, th.cmd, th.offset, th.len, fresh');
    } else {
      fresh' := FreshId(m.ranges.Keys);
      LruHasNot(m, fresh');
      SameAges(m.lru, fresh');
      if step.ReleaseArea? {
        DropKeepsAge(m, step.a, fresh');
      } else if step.ScanMark? {
        MarkAges(m, fresh');
      }
      NobodyJoins(s, step, fresh');
    }
  }

  /** Only serving a request brings a range that is not in the tables. */
  lemma NobodyJoins(s: Sys, step: Step, fresh': RangeId)
    requires SysInv(s) && Enabled(s, step) && !step.Serve? && fresh' !in s.mem.ranges
    ensures fresh' !in Apply(s, step).mem.lru
  {
    hide ListsInv, BoundsInv, FilesInv, LockInv, CountInv, HolesInv, LostInv, PinUnpin, MarkOldest, NoDup, Pages,
         Release;
    LruHasNot(s.mem, fresh');
    if step.ReleaseArea? {
      ReleaseForgetsArea(s.mem, step.a);
    } else if step.ScanMark? {
      MarkOldestKeepsInv(s.mem);
    }
  }

  lemma MarkAges(m: Mem, fresh': RangeId)
    requires Inv(m) && m.lru != [] && fresh' !in m.lru
    ensures m.lru[0] in m.ranges && Aged(m.lru, MarkOldest(m).lru, fresh')
  {
    hide Aged, ListsInv;
    RemoveAges(m.lru, m.lru[0], fresh');
  }

  /** The longer a range has been on the list, the nearer it is to the head. */
  lemma {:induction false} LruByAge(tr: seq<Sys>, i: nat, p: nat, q: nat)
    requires Run(tr) && i < |tr| && p < q < |tr[i].mem.lru|
    ensures Since(tr, i, tr[i].mem.lru[p]) < Since(tr, i, tr[i].mem.lru[q])
    decreases i
  {
    hide Apply, Enabled, SysInv, Aged, StepAged;
    InitHasNone(tr[0]);
    if i > 0 {
      var before, now := tr[i - 1].mem.lru, tr[i].mem.lru;
      var fresh' := NextAges(tr, i);
      AgedMeans(before, now, fresh', p, q);
      AgedFrom(before, now, fresh', p);
      if now[q] != fresh' {
        var p', q' :| 0 <= p' < q' < |before| && before[p'] == now[p] && before[q'] == now[q];
        LruByAge(tr, i - 1, p', q');
      }
    }
  }

  lemma InitHasNone(s: Sys)
    requires Init(s)
    ensures s.mem.lru == []
  {
  }

  lemma NextAges(tr: seq<Sys>, i: nat) returns (fresh': RangeId)
    requires Run(tr) && 0 < i < |tr|
    ensures fresh' !in tr[i - 1].mem.lru && Aged(tr[i - 1].mem.lru, tr[i].mem.lru, fresh')
  {
    hide Apply, Enabled, SysInv, Aged;
    RunKeepsInv(tr, i - 1);
    assert Next(tr[i - 1], tr[i]);
    var step :| Enabled(tr[i - 1], step) && tr[i] == Apply(tr[i - 1], step);
    fresh' := StepAges(tr[i - 1], step);
  }

  /** Whoever is on the list now was on it before, unless it is the new one. */
  lemma AgedFrom(before: seq<RangeId>, now: seq<RangeId>, fresh': RangeId, p: nat)
    requires Aged(before, now, fresh') && p < |now| && now[p] != fresh'
    ensures now[p] in before
  {
    FilterMembers(before, Members(now) - {fresh'});
  }

  /** A range joins the list only by a request that is served, and as its new range. */
  lemma JoinsByRequest(tr: seq<Sys>, i: nat, id: RangeId)
    requires Run(tr) && 0 < i < |tr| && id in tr[i].mem.lru && id !in tr[i - 1].mem.lru
    ensures exists t :: Enabled(tr[i - 1], Serve(t, id)) && tr[i] == Apply(tr[i - 1], Serve(t, id))
  {
    hide Apply, Enabled, SysInv, Aged;
    RunKeepsInv(tr, i - 1);
    assert Next(tr[i - 1], tr[i]);
    var step :| Enabled(tr[i - 1], step) && tr[i] == Apply(tr[i - 1], step);
    var fresh' := StepAges(tr[i - 1], step);
    var p :| 0 <= p < |tr[i].mem.lru| && tr[i].mem.lru[p] == id;
    if id != fresh' {
      AgedFrom(tr[i - 1].mem.lru, tr[i].mem.lru, fresh', p);
    }
    assert step == Serve(step.t, id);
  }

  /** In every run the range a shrinker marks has been unpinned longer than every other on the list. */
  lemma MarkedIsOldest(tr: seq<Sys>, i: nat, t: Tid, id: RangeId)
    requires Run(tr) && i < |tr| && Enabled(tr[i], ScanMark(t)) && id in tr[i].mem.lru && id != tr[i].mem.lru[0]
    ensures Since(tr, i, tr[i].mem.lru[0]) < Since(tr, i, id)
  {
    hide Run, Since;
    var q :| 0 <= q < |tr[i].mem.lru| && tr[i].mem.lru[q] == id;
    LruByAge(tr, i, 0, q);
  }
}
