/** A page that a user has pinned stays pinned until it is unpinned again, and no shrinker punches it. */
module AshmemPinned {
  import opened AshmemRanges
  import opened AshmemPinning
  import opened AshmemUnpinning
  import opened AshmemRequest
  import opened AshmemIoctl
  import opened AshmemProtocol

  /** The request served in this step is accepted and names page p of area a. */
  ghost predicate ServesPage(s: Sys, t: Tid, fresh': RangeId, cmd: Command, a: AreaId, p: nat) {
    Enabled(s, Serve(t, fresh')) &&
    var th := s.threads[t];
    var area := s.mem.areas[th.asma];
    var d := Decode(area.size, th.offset, th.len);
    th.asma == a && th.cmd == cmd && area.file.Some? && d.Accepted? && d.pgstart <= p <= d.pgend
  }

  /** From s to s' a pin or unpin of page p of area a is served. */
  ghost predicate ServedFor(s: Sys, s': Sys, cmd: Command, a: AreaId, p: nat) {
    exists t, fresh' :: ServesPage(s, t, fresh', cmd, a, p) && s' == Apply(s, Serve(t, fresh'))
  }

  lemma SameRangesSamePages(m: Mem, m': Mem, a: AreaId, p: nat)
    requires forall id :: id in m'.ranges ==> id in m.ranges && m'.ranges[id] == m.ranges[id]
    ensures Unpinned(m', a, p) ==> Unpinned(m, a, p)
  {
  }

  /** Serving a request unpins no page but those it names. */
  lemma ServeUnpinsOnlyNamed(s: Sys, t: Tid, fresh': RangeId, a: AreaId, p: nat)
    requires SysInv(s) && Enabled(s, Serve(t, fresh')) && !Unpinned(s.mem, a, p)
    requires !ServesPage(s, t, fresh', UnpinPages, a, p)
    ensures !Unpinned(Apply(s, Serve(t, fresh')).mem, a, p)
  {
    hide Inv, BoundsInv, FilesInv, LockInv, CountInv, HolesInv, LostInv, HeldAs, PinUnpin, Decode, PageAlign;
    var th := s.threads[t];
    RequestDoes(s.mem, th.asma, th.cmd, th.offset, th.len, fresh');
  }

  lemma StepUnpinsOnlyNamed(s: Sys, step: Step, a: AreaId, p: nat)
    requires SysInv(s) && Enabled(s, step) && !Unpinned(s.mem, a, p)
    requires step.Serve? ==> !ServesPage(s, step.t, step.fresh', UnpinPages, a, p)
    ensures !Unpinned(Apply(s, step).mem, a, p)
  {
    hide ListsInv, BoundsInv, FilesInv, LockInv, CountInv, HolesInv, LostInv, HeldAs, MarkOldest, Release, PinUnpin;
    if step.Serve? {
      ServeUnpinsOnlyNamed(s, step.t, step.fresh', a, p);
    } else if step.ScanMark? {
      MarkOldestPurges(s.mem);
    } else if step.ReleaseArea? {
      ReleaseForgetsArea(s.mem, step.a);
      SameRangesSamePages(s.mem, Apply(s, step).mem, a, p);
    } else {
      SameRangesSamePages(s.mem, Apply(s, step).mem, a, p);
    }
  }

  lemma PinTakesPage(s: Sys, s': Sys, a: AreaId, p: nat)
    requires SysInv(s) && ServedFor(s, s', PinPages, a, p)
    ensures !Unpinned(s'.mem, a, p)
  {
    hide Inv, BoundsInv, FilesInv, LockInv, CountInv, HolesInv, LostInv, HeldAs, PinUnpin, Decode, PageAlign;
    var t, fresh' :| ServesPage(s, t, fresh', PinPages, a, p) && s' == Apply(s, Serve(t, fresh'));
    var th := s.threads[t];
    RequestDoes(s.mem, th.asma, th.cmd, th.offset, th.len, fresh');
  }

  lemma NextUnpinsOnlyNamed(s: Sys, s': Sys, a: AreaId, p: nat)
    requires SysInv(s) && Next(s, s') && !Unpinned(s.mem, a, p) && !ServedFor(s, s', UnpinPages, a, p)
    ensures !Unpinned(s'.mem, a, p)
  {
    hide SysInv, Apply, Enabled, Unpinned, ServesPage;
    var step :| Enabled(s, step) && s' == Apply(s, step);
    assert step.Serve? && ServesPage(s, step.t, step.fresh', UnpinPages, a, p) ==> ServedFor(s, s', UnpinPages, a, p);
    StepUnpinsOnlyNamed(s, step, a, p);
  }

  /** In every run a pinned page stays pinned from the served pin on, until an unpin of it is served. */
  lemma {:induction false} PinnedStaysPinned(tr: seq<Sys>, i: nat, j: nat, a: AreaId, p: nat)
    requires Run(tr) && i < j < |tr| && ServedFor(tr[i], tr[i + 1], PinPages, a, p)
    requires forall k :: i < k < j ==> !ServedFor(tr[k], tr[k + 1], UnpinPages, a, p)
    ensures !Unpinned(tr[j].mem, a, p)
    decreases j
  {
    hide SysInv, Next, Unpinned, ServedFor, Init;
    RunKeepsInv(tr, j - 1);
    if j == i + 1 {
      PinTakesPage(tr[i], tr[j], a, p);
    } else {
      PinnedStaysPinned(tr, i, j - 1, a, p);
      assert !ServedFor(tr[j - 1], tr[j - 1 + 1], UnpinPages, a, p);
      NextUnpinsOnlyNamed(tr[j - 1], tr[j], a, p);
    }
  }

  /** And no shrinker punches it meanwhile, as long as the area stays open on the file the hole is in. */
  lemma PinnedIsNotPunched(tr: seq<Sys>, i: nat, j: nat, a: AreaId, p: nat, t: Tid, gone: iset<nat>)
    requires Run(tr) && i < j < |tr| && ServedFor(tr[i], tr[i + 1], PinPages, a, p)
    requires forall k :: i < k < j ==> !ServedFor(tr[k], tr[k + 1], UnpinPages, a, p)
    requires Enabled(tr[j], ScanPunch(t, gone)) && a in tr[j].mem.areas
    requires tr[j].mem.areas[a].file == Some(tr[j].threads[t].hole.file)
    ensures p !in gone
  {
    hide Run, Unpinned, ServedFor, HeldAs;
    PinnedStaysPinned(tr, i, j, a, p);
    if p in gone {
      PunchedPagesAreUnpinned(tr, j, t, gone, a, p);
    }
  }

  /** An unpin that is served unpins every page it names. */
  lemma UnpinReleasesPage(s: Sys, s': Sys, a: AreaId, p: nat)
    requires SysInv(s) && ServedFor(s, s', UnpinPages, a, p)
    ensures Unpinned(s'.mem, a, p)
  {
    hide Inv, BoundsInv, FilesInv, LockInv, CountInv, HolesInv, LostInv, HeldAs, PinUnpin, Decode, PageAlign;
    var t, fresh' :| ServesPage(s, t, fresh', UnpinPages, a, p) && s' == Apply(s, Serve(t, fresh'));
    var th := s.threads[t];
    RequestDoes(s.mem, th.asma, th.cmd, th.offset, th.len, fresh');
  }

  /** The hole a shrinker is going to punch is exactly the pages that its marking turned purged. */
  lemma HoleIsMarkedRange(s: Sys, t: Tid, b: AreaId, p: nat)
    requires SysInv(s) && Enabled(s, ScanMark(t)) && b in s.mem.areas
    ensures var s' := Apply(s, ScanMark(t));
            && s'.threads[t].Marked?
            && (HeldAs(s'.mem, b, p, true) <==>
                  HeldAs(s.mem, b, p, true)
                  || (s.mem.areas[b].file == Some(s'.threads[t].hole.file)
                      && s'.threads[t].hole.first <= p <= s'.threads[t].hole.last))
  {
    hide ListsInv, BoundsInv, LockInv, CountInv, HolesInv, LostInv, HeldAs, MarkOldest, Pages, NoDup;
    InvGivesLru(s.mem);
    MarkOldestPurges(s.mem);
  }
}
