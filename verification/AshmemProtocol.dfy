/**
  Any number of user threads and shrinkers interleaved.

  State guarded by ashmem_mutex changes in single steps of the thread that holds it.  A
  shrinker drops the mutex around each hole punch, so marking, unlocking, punching,
  decrementing ashmem_shrink_inflight and trying for the mutex again are separate steps.
 */
module AshmemProtocol {
  import opened AshmemRanges
  import opened AshmemPinning
  import opened AshmemUnpinning
  import opened AshmemRequest
  import opened AshmemIoctl

  type Tid = nat

  /** The hole a shrinker punches: whole pages first..last of a backing file it holds a reference to. */
  datatype Hole = Hole(file: FileId, first: nat, last: nat)

  datatype Thread =
    | Idle
    | Waiting(asma: AreaId, cmd: Command, offset: nat, len: nat)  // has the mutex, waits for inflight == 0
    | Scanning(nr: nat)                                           // has the mutex, at the loop test
    | Marked(hole: Hole, nr: nat)                                 // has the mutex, range marked, inflight raised
    | Punching(hole: Hole, nr: nat)                               // mutex dropped
    | Punched(hole: Hole, nr: nat)                                // hole made, inflight still raised
    | Lowered(nr: nat)                                            // inflight lowered, about to try the mutex

  /**
    `lost` records the pages hole-punched since they were last pinned, `files` every backing
    file ever made; neither exists in the driver.
   */
  datatype Sys = Sys(mem: Mem, mutex: Option<Tid>, inflight: int, threads: map<Tid, Thread>,
                     lost: iset<(FileId, nat)>, files: set<FileId>)

  predicate HasMutex(th: Thread) {
    th.Waiting? || th.Scanning? || th.Marked?
  }

  predicate InFlight(th: Thread) {
    th.Marked? || th.Punching? || th.Punched?
  }

  function Fliers(s: Sys): set<Tid> {
    set t | t in s.threads && InFlight(s.threads[t])
  }

  // ---------- Steps ----------

  datatype Step =
    | OpenArea(a: AreaId)
    | SetAreaSize(a: AreaId, size: nat)
    | MapArea(a: AreaId, length: nat, allowed: bool, setup: Option<FileId>)
    | ReleaseArea(a: AreaId)
    | Ask(t: Tid, a: AreaId, cmd: Command, offset: nat, len: nat)
    | Serve(t: Tid, fresh': RangeId)
    | ScanStart(t: Tid, nr: nat)
    | ScanMark(t: Tid)
    | ScanUnlock(t: Tid)
    | ScanPunch(t: Tid, gone: iset<nat>)
    | ScanLower(t: Tid)
    | ScanRetry(t: Tid)
    | ScanGiveUp(t: Tid)
    | ScanEmpty(t: Tid)

  predicate At(s: Sys, t: Tid) {
    t in s.threads
  }

  /** The mutex is free, so a section that takes and drops it can run. */
  ghost predicate Enabled(s: Sys, step: Step) {
    match step
    case OpenArea(a) => a !in s.mem.areas
    case SetAreaSize(a, _) => a in s.mem.areas && s.mutex.None?
    case MapArea(a, length, _, setup) =>
      a in s.mem.areas && s.mutex.None? && length > 0 && (setup.Some? ==> setup.value !in s.files)
    case ReleaseArea(a) => a in s.mem.areas && s.mutex.None? && CanVisit(s.mem, a, 0)
    case Ask(t, a, _, offset, len) =>
      At(s, t) && s.threads[t].Idle? && s.mutex.None? && a in s.mem.areas && offset < U32 && len < U32
    case Serve(t, fresh') => At(s, t) && s.threads[t].Waiting? && s.inflight == 0 && fresh' !in s.mem.ranges
                             && Inv(s.mem) && s.threads[t].asma in s.mem.areas
                             && s.mem.areas[s.threads[t].asma].size < WORD
                             && s.threads[t].offset < U32 && s.threads[t].len < U32
    case ScanStart(t, _) => At(s, t) && s.threads[t].Idle? && s.mutex.None?
    case ScanMark(t) => At(s, t) && s.threads[t].Scanning? && s.mem.lru != [] && s.mem.lru[0] in s.mem.ranges
                        && s.mem.ranges[s.mem.lru[0]].asma in s.mem.areas
                        && s.mem.areas[s.mem.ranges[s.mem.lru[0]].asma].file.Some?
    case ScanUnlock(t) => At(s, t) && s.threads[t].Marked?
    case ScanPunch(t, gone) => At(s, t) && s.threads[t].Punching?
                               && forall p :: p in gone ==> s.threads[t].hole.first <= p <= s.threads[t].hole.last
    case ScanLower(t) => At(s, t) && s.threads[t].Punched?
    case ScanRetry(t) => At(s, t) && s.threads[t].Lowered? && s.mutex.None?
    case ScanGiveUp(t) => At(s, t) && s.threads[t].Lowered? && s.mutex.Some?
    case ScanEmpty(t) => At(s, t) && s.threads[t].Scanning? && s.mem.lru == []
  }

  ghost function Served(s: Sys, t: Tid, fresh': RangeId): (Mem, Reply)
    requires Enabled(s, Serve(t, fresh'))
  {
    var th := s.threads[t];
    PinUnpin(s.mem, th.asma, th.cmd, th.offset, th.len, fresh')
  }

  /** Pages that an accepted pin request takes back, named by backing file. */
  ghost function PinnedBy(s: Sys, t: Tid): iset<(FileId, nat)>
    requires At(s, t) && s.threads[t].Waiting? && s.threads[t].asma in s.mem.areas
  {
    var th := s.threads[t];
    var area := s.mem.areas[th.asma];
    var d := Decode(area.size, th.offset, th.len);
    iset x: (FileId, nat) | th.cmd.PinPages? && area.file == Some(x.0) && d.Accepted? && d.pgstart <= x.1 <= d.pgend
  }

  ghost function Apply(s: Sys, step: Step): Sys
    requires Enabled(s, step)
  {
    match step
    case OpenArea(a) => s.(mem := Open(s.mem, a))
    case SetAreaSize(a, size) => s.(mem := SetSize(s.mem, a, size).0)
    case MapArea(a, length, allowed, setup) =>
      s.(mem := Mmap(s.mem, a, length, allowed, setup).0,
         files := if setup.Some? then s.files + {setup.value} else s.files)
    case ReleaseArea(a) => s.(mem := Release(s.mem, a))
    case Ask(t, a, cmd, offset, len) => s.(mutex := Some(t), threads := s.threads[t := Waiting(a, cmd, offset, len)])
    case Serve(t, fresh') =>
      s.(mem := Served(s, t, fresh').0, mutex := None, threads := s.threads[t := Idle], lost := s.lost - PinnedBy(s, t))
    case ScanStart(t, nr) => s.(mutex := Some(t), threads := s.threads[t := Scanning(nr % WORD)])
    case ScanMark(t) =>
      var r := s.mem.ranges[s.mem.lru[0]];
      var hole := Hole(s.mem.areas[r.asma].file.value, r.pgstart, r.pgend);
      s.(mem := MarkOldest(s.mem), inflight := s.inflight + 1, threads := s.threads[t := Marked(hole, s.threads[t].nr)])
    case ScanUnlock(t) => s.(mutex := None, threads := s.threads[t := Punching(s.threads[t].hole, s.threads[t].nr)])
    case ScanPunch(t, gone) =>
      s.(threads := s.threads[t := Punched(s.threads[t].hole, s.threads[t].nr)],
         lost := s.lost + iset x: (FileId, nat) | x.0 == s.threads[t].hole.file && x.1 in gone)
    case ScanLower(t) => s.(inflight := s.inflight - 1, threads := s.threads[t := Lowered(s.threads[t].nr)])
    case ScanRetry(t) =>
      var nr := (s.threads[t].nr - 1) % WORD;
      if nr == 0 then s.(threads := s.threads[t := Idle])
      else s.(mutex := Some(t), threads := s.threads[t := Scanning(nr)])
    case ScanGiveUp(t) => s.(threads := s.threads[t := Idle])
    case ScanEmpty(t) => s.(mutex := None, threads := s.threads[t := Idle])
  }

  ghost predicate Init(s: Sys) {
    && s.mem == Mem(map[], map[], [], 0) && s.mutex.None? && s.inflight == 0
    && (forall t :: t in s.threads ==> s.threads[t].Idle?) && s.lost == iset{} && s.files == {}
  }

  ghost predicate Next(s: Sys, s': Sys) {
    exists step :: Enabled(s, step) && s' == Apply(s, step)
  }

  // ---------- Invariant ----------

  ghost predicate LockInv(s: Sys) {
    forall t :: t in s.threads ==> (HasMutex(s.threads[t]) <==> s.mutex == Some(t))
  }

  ghost predicate CountInv(s: Sys) {
    s.inflight == |Fliers(s)|
  }

  /** Every page of the hole is unpinned and marked purged in any open area backed by the hole's file. */
  ghost predicate Covered(m: Mem, hole: Hole) {
    forall a, p: nat :: a in m.areas && m.areas[a].file == Some(hole.file) && hole.first <= p <= hole.last ==>
      HeldAs(m, a, p, true)
  }

  ghost predicate HolesInv(s: Sys) {
    forall t :: t in s.threads && InFlight(s.threads[t]) ==>
      s.threads[t].hole.file in s.files && Covered(s.mem, s.threads[t].hole)
  }

  /** Every page punched since it was last pinned is marked purged, as long as its area is open. */
  ghost predicate LostInv(s: Sys) {
    forall x :: x in s.lost ==> x.0 in s.files && Covered(s.mem, Hole(x.0, x.1, x.1))
  }

  ghost predicate FileIdsInv(s: Sys) {
    forall a :: a in s.mem.areas && s.mem.areas[a].file.Some? ==> s.mem.areas[a].file.value in s.files
  }

  /** A waiting request names an open area: closing needs the mutex the request holds. */
  ghost predicate RequestsInv(s: Sys) {
    forall t :: t in s.threads && s.threads[t].Waiting? ==>
      s.threads[t].asma in s.mem.areas && s.threads[t].offset < U32 && s.threads[t].len < U32
  }

  ghost predicate SysInv(s: Sys) {
    && MemInv(s.mem) && LockInv(s) && CountInv(s)
    && HolesInv(s) && LostInv(s) && FileIdsInv(s) && RequestsInv(s)
  }

  // ---------- Every step keeps the invariant ----------

  /** From m to m' no open area with a file in `files` loses a purge mark. */
  ghost predicate KeepsMarks(m: Mem, m': Mem, files: set<FileId>) {
    forall a :: a in m'.areas && m'.areas[a].file.Some? && m'.areas[a].file.value in files ==>
      && a in m.areas && m.areas[a].file == m'.areas[a].file
      && (forall p: nat :: HeldAs(m, a, p, true) ==> HeldAs(m', a, p, true))
  }

  lemma MarksKeepHoles(s: Sys, s': Sys)
    requires HolesInv(s) && LostInv(s) && KeepsMarks(s.mem, s'.mem, s.files)
    requires s.files <= s'.files && s'.threads == s.threads && s'.lost == s.lost
    ensures HolesInv(s') && LostInv(s')
  {
  }

  /** Only thread t moved: its new state decides lock, count and hole. */
  lemma MovedThread(s: Sys, s': Sys, t: Tid)
    requires LockInv(s) && CountInv(s) && t in s.threads && t in s'.threads
             && s'.threads == s.threads[t := s'.threads[t]]
    requires HasMutex(s'.threads[t]) ==> s'.mutex == Some(t) && (s.mutex.None? || s.mutex == Some(t))
    requires !HasMutex(s'.threads[t]) ==> s'.mutex == if HasMutex(s.threads[t]) then None else s.mutex
    requires s'.inflight - s.inflight ==
      (if InFlight(s'.threads[t]) then 1 else 0) - (if InFlight(s.threads[t]) then 1 else 0)
    ensures LockInv(s') && CountInv(s')
  {
    var rest := set u | u in s.threads && u != t && InFlight(s.threads[u]);
    assert Fliers(s) == if InFlight(s.threads[t]) then rest + {t} else rest;
    assert Fliers(s') == if InFlight(s'.threads[t]) then rest + {t} else rest;
  }

  /** Open, set size, mmap and release. */
  lemma AreaStepKeepsInv(s: Sys, step: Step)
    requires SysInv(s) && Enabled(s, step)
    requires step.OpenArea? || step.SetAreaSize? || step.MapArea? || step.ReleaseArea?
    ensures SysInv(Apply(s, step))
  {
    hide Inv, FilesInv, BoundsInv, HolesInv, LostInv, HasMutex, InFlight;
    var s' := Apply(s, step);
    AreaStepKeepsMem(s, step);
    MarksKeepHoles(s, s');
    assert Fliers(s') == Fliers(s);
    assert RequestsInv(s') by {
      if step.ReleaseArea? {
        assert forall t :: t in s.threads ==> !s.threads[t].Waiting? by {
          forall t | t in s.threads
            ensures !s.threads[t].Waiting?
          {
            NoHolder(s, t);
          }
        }
      }
    }
  }

  lemma NoHolder(s: Sys, t: Tid)
    requires LockInv(s) && s.mutex.None? && t in s.threads
    ensures !HasMutex(s.threads[t]) && !s.threads[t].Waiting?
  {
  }

  /** What an area step does to the tables. */
  ghost predicate AreaStepGood(s: Sys, s': Sys, closed: set<AreaId>) {
    && MemInv(s'.mem) && KeepsMarks(s.mem, s'.mem, s.files) && FileIdsInv(s')
    && s'.mem.areas.Keys >= s.mem.areas.Keys - closed
  }

  lemma AreaStepKeepsMem(s: Sys, step: Step)
    requires MemInv(s.mem) && FileIdsInv(s) && Enabled(s, step)
    requires step.OpenArea? || step.SetAreaSize? || step.MapArea? || step.ReleaseArea?
    ensures AreaStepGood(s, Apply(s, step), if step.ReleaseArea? then {step.a} else {})
  {
    hide Inv, BoundsInv, HeldAs, Release, PageAlign, FilesInv;
    var m := s.mem;
    if step.OpenArea? {
      OpenKeepsInv(m, step.a);
      SameRangesSameMarks(m, Open(m, step.a));
    } else if step.SetAreaSize? {
      SetSizeKeepsInv(m, step.a, step.size);
      SameRangesSameMarks(m, SetSize(m, step.a, step.size).0);
    } else if step.MapArea? {
      MapStepKeepsMem(s, step);
    } else {
      ReleaseKeepsMemInv(m, step.a);
      ReleaseKeepsMarks(m, step.a, s.files);
    }
  }

  lemma MapStepKeepsMem(s: Sys, step: Step)
    requires MemInv(s.mem) && FileIdsInv(s) && Enabled(s, step) && step.MapArea?
    ensures AreaStepGood(s, Apply(s, step), {})
  {
    hide Inv, BoundsInv, HeldAs, PageAlign, FilesInv;
    MmapFresh(s, step);
    MmapKeepsInv(s.mem, step.a, step.length, step.allowed, step.setup);
    SameRangesSameMarks(s.mem, Mmap(s.mem, step.a, step.length, step.allowed, step.setup).0);
  }

  lemma MmapFresh(s: Sys, step: Step)
    requires FileIdsInv(s) && Enabled(s, step) && step.MapArea?
    ensures step.setup.Some? ==> forall b :: b in s.mem.areas ==> s.mem.areas[b].file != step.setup
  {
  }

  lemma SameRangesSameMarks(m: Mem, m': Mem)
    requires m'.ranges == m.ranges
    ensures forall a: AreaId, p: nat :: HeldAs(m, a, p, true) ==> HeldAs(m', a, p, true)
  {
  }

  lemma ReleaseKeepsMarks(m: Mem, a: AreaId, files: set<FileId>)
    requires Inv(m) && CanVisit(m, a, 0)
    ensures KeepsMarks(m, Release(m, a), files)
    ensures Release(m, a).areas.Keys == m.areas.Keys - {a}
    ensures forall b :: b in m.areas && b != a ==> Release(m, a).areas[b] == m.areas[b]
  {
    ReleaseForgetsArea(m, a);
    var m' := Release(m, a);
    hide Inv, Release;
    forall b, p: nat | b in m'.areas && HeldAs(m, b, p, true)
      ensures HeldAs(m', b, p, true)
    {
      var id :| id in m.ranges && m.ranges[id].asma == b && m.ranges[id].purged && PageInRange(m.ranges[id], p);
      assert id in m'.ranges;
    }
  }

  /** Steps that move one thread and leave the tables alone. */
  predicate MovesOnly(step: Step) {
    step.Ask? || step.ScanStart? || step.ScanUnlock? || step.ScanPunch? || step.ScanLower? || step.ScanRetry?
    || step.ScanGiveUp? || step.ScanEmpty?
  }

  lemma ThreadStepKeepsInv(s: Sys, step: Step)
    requires SysInv(s) && Enabled(s, step) && MovesOnly(step)
    ensures SysInv(Apply(s, step))
  {
    hide MemInv, CountInv, Fliers, HeldAs;
    var s' := Apply(s, step);
    assert s'.mem == s.mem && s'.threads == s.threads[step.t := s'.threads[step.t]];
    hide LockInv, Covered;
    MovedThreadMutex(s, step);
    MovedThread(s, s', step.t);
    if step.ScanPunch? {
      PunchIsCovered(s, step.t, step.gone);
    }
  }

  lemma MovedThreadMutex(s: Sys, step: Step)
    requires LockInv(s) && Enabled(s, step) && MovesOnly(step)
    ensures HasMutex(s.threads[step.t]) <==> s.mutex == Some(step.t)
  {
  }

  lemma PunchIsCovered(s: Sys, t: Tid, gone: iset<nat>)
    requires HolesInv(s) && LostInv(s) && Enabled(s, ScanPunch(t, gone))
    ensures LostInv(Apply(s, ScanPunch(t, gone)))
  {
    hide HeldAs;
    assert Covered(s.mem, s.threads[t].hole);
  }

  lemma MarkStepKeepsInv(s: Sys, t: Tid)
    requires SysInv(s) && Enabled(s, ScanMark(t))
    ensures SysInv(Apply(s, ScanMark(t)))
  {
    hide Inv, BoundsInv, CountInv, HeldAs, MarkOldest, LockInv, Fliers;
    var s' := Apply(s, ScanMark(t));
    var m := s.mem;
    InvGivesLru(m);
    MarkKeepsMemInv(m);
    MarkOldestPurges(m);
    HasMutexThen(s, t);
    MovedThread(s, s', t);
    MarksKeepHoles(s, s.(mem := s'.mem));
    assert Covered(s'.mem, s'.threads[t].hole) by {
      var r := m.ranges[m.lru[0]];
      var file := Some(s'.threads[t].hole.file);
      forall a, p: nat | a in s'.mem.areas && s'.mem.areas[a].file == file && r.pgstart <= p <= r.pgend
        ensures HeldAs(s'.mem, a, p, true)
      {
        assert a == r.asma;
      }
    }
  }

  lemma HasMutexThen(s: Sys, t: Tid)
    requires LockInv(s) && t in s.threads && HasMutex(s.threads[t])
    ensures s.mutex == Some(t)
  {
  }

  lemma InvGivesLru(m: Mem)
    requires Inv(m)
    ensures OnLruIffNotPurged(m.ranges, m.lru)
  {
  }

  /** Serving a request: with no shrinker in flight only `lost` has to be accounted for. */
  lemma ServeStepKeepsInv(s: Sys, t: Tid, fresh': RangeId)
    requires SysInv(s) && Enabled(s, Serve(t, fresh'))
    ensures SysInv(Apply(s, Serve(t, fresh')))
  {
    hide Inv, BoundsInv, HeldAs, PinUnpin, FilesInv, LostInv, Decode, PageAlign;
    var s' := Apply(s, Serve(t, fresh'));
    var th := s.threads[t];
    PinUnpinKeepsMemInv(s.mem, th.asma, th.cmd, th.offset, th.len, fresh');
    MovedThread(s, s', t);
    assert HolesInv(s') by {
      assert Fliers(s') == {};
      assert forall u :: u in s'.threads && InFlight(s'.threads[u]) ==> u in Fliers(s');
    }
    ServeKeepsMarks(s, t, fresh');
  }

  lemma ServeKeepsMarks(s: Sys, t: Tid, fresh': RangeId)
    requires MemInv(s.mem) && LostInv(s) && Enabled(s, Serve(t, fresh'))
    ensures LostInv(Apply(s, Serve(t, fresh')))
  {
    hide Inv, BoundsInv, HeldAs, PinUnpin;
    var s' := Apply(s, Serve(t, fresh'));
    var m, m', th := s.mem, s'.mem, s.threads[t];
    PinUnpinKeepsMemInv(m, th.asma, th.cmd, th.offset, th.len, fresh');
    PinUnpinMarks(m, th.asma, th.cmd, th.offset, th.len, fresh');
    forall x | x in s'.lost
      ensures Covered(m', Hole(x.0, x.1, x.1))
    {
      assert Covered(m, Hole(x.0, x.1, x.1));
      forall a | a in m'.areas && m'.areas[a].file == Some(x.0)
        ensures HeldAs(m', a, x.1, true)
      {
        assert HeldAs(m, a, x.1, true);
        assert x !in PinnedBy(s, t);
      }
    }
  }

  /** A request drops no purge mark except those of the pages it pins. */
  lemma PinUnpinMarks(m: Mem, a: AreaId, cmd: Command, offset: nat, len: nat, fresh': RangeId)
    requires MemInv(m) && a in m.areas && offset < U32 && len < U32 && fresh' !in m.ranges
    ensures var m' := PinUnpin(m, a, cmd, offset, len, fresh').0;
            var d := Decode(m.areas[a].size, offset, len);
            forall b, p: nat :: HeldAs(m, b, p, true) &&
              !(b == a && cmd.PinPages? && m.areas[a].file.Some? && d.Accepted? && d.pgstart <= p <= d.pgend)
              ==> HeldAs(m', b, p, true)
  {
    hide ListsInv, LruInv, BoundsInv, HeldAs, PinFrom, UnpinFrom;
    var d := Decode(m.areas[a].size, offset, len);
    if m.areas[a].file.Some? && d.Accepted? {
      InvCanVisit(m, a);
      AcceptedInBoundsIff(m.areas[a].size, offset, len);
      if cmd.PinPages? {
        PinIsDifference(m, a, d.pgstart, d.pgend, fresh');
      } else if cmd.UnpinPages? {
        UnpinIsUnion(m, a, d.pgstart, d.pgend, fresh');
      }
    }
  }

  lemma InitInv(s: Sys)
    requires Init(s)
    ensures SysInv(s)
  {
    assert Fliers(s) == {};
  }

  lemma StepKeepsInv(s: Sys, step: Step)
    requires SysInv(s) && Enabled(s, step)
    ensures SysInv(Apply(s, step))
  {
    hide SysInv, Apply, Enabled;
    if MovesOnly(step) {
      ThreadStepKeepsInv(s, step);
    } else if step.Serve? {
      ServeStepKeepsInv(s, step.t, step.fresh');
    } else if step.ScanMark? {
      MarkStepKeepsInv(s, step.t);
    } else {
      AreaStepKeepsInv(s, step);
    }
  }

  // ---------- Whole runs ----------

  ghost predicate Run(tr: seq<Sys>) {
    && tr != [] && Init(tr[0])
    && (forall i :: 0 < i < |tr| ==> Next(tr[i - 1], tr[i]))
  }

  lemma {:induction false} RunKeepsInv(tr: seq<Sys>, i: nat)
    requires Run(tr) && i < |tr|
    ensures SysInv(tr[i])
  {
    if i == 0 {
      InitInv(tr[0]);
    } else {
      hide SysInv, Apply, Enabled, Init;
      RunKeepsInv(tr, i - 1);
      assert Next(tr[i - 1], tr[i]);
      var step :| Enabled(tr[i - 1], step) && tr[i] == Apply(tr[i - 1], step);
      StepKeepsInv(tr[i - 1], step);
    }
  }

  /** In every run, whatever a shrinker punches is unpinned and marked purged in every open area. */
  lemma PunchedPagesAreUnpinned(tr: seq<Sys>, i: nat, t: Tid, gone: iset<nat>, a: AreaId, p: nat)
    requires Run(tr) && i < |tr| && Enabled(tr[i], ScanPunch(t, gone)) && p in gone
    requires a in tr[i].mem.areas && tr[i].mem.areas[a].file == Some(tr[i].threads[t].hole.file)
    ensures HeldAs(tr[i].mem, a, p, true) && Unpinned(tr[i].mem, a, p)
  {
    RunKeepsInv(tr, i);
    hide MemInv, HeldAs;
    assert Covered(tr[i].mem, tr[i].threads[t].hole);
  }

  /** From marking to lowering the count, no page of the hole is pinned, whatever other threads do. */
  lemma HoleStaysUnpinned(tr: seq<Sys>, i: nat, t: Tid, a: AreaId, p: nat)
    requires Run(tr) && i < |tr| && t in tr[i].threads && InFlight(tr[i].threads[t])
    requires a in tr[i].mem.areas && tr[i].mem.areas[a].file == Some(tr[i].threads[t].hole.file)
    requires tr[i].threads[t].hole.first <= p <= tr[i].threads[t].hole.last
    ensures Unpinned(tr[i].mem, a, p) && tr[i].inflight > 0
  {
    RunKeepsInv(tr, i);
    hide MemInv, HeldAs;
    assert Covered(tr[i].mem, tr[i].threads[t].hole);
    assert t in Fliers(tr[i]);
  }

  /** In every run, a pin whose interval holds a page punched since it was last pinned reports WAS_PURGED. */
  lemma LostPagesAreReported(tr: seq<Sys>, i: nat, t: Tid, fresh': RangeId, p: nat)
    requires Run(tr) && i < |tr| && Enabled(tr[i], Serve(t, fresh'))
    requires var th := tr[i].threads[t];
             var area := tr[i].mem.areas[th.asma];
             var d := Decode(area.size, th.offset, th.len);
             th.cmd.PinPages? && area.file.Some? && d.Accepted? && d.pgstart <= p <= d.pgend
             && (area.file.value, p) in tr[i].lost
    ensures Served(tr[i], t, fresh').1 == PinReply(true)
  {
    RunKeepsInv(tr, i);
    var s := tr[i];
    var th := s.threads[t];
    var f := s.mem.areas[th.asma].file.value;
    hide LockInv, CountInv, HolesInv, BoundsInv, ListsInv, LruInv, PinFrom, HeldAs;
    assert Covered(s.mem, Hole(f, p, p));
    assert HeldAs(s.mem, th.asma, p, true);
    var d := Decode(s.mem.areas[th.asma].size, th.offset, th.len);
    InvCanVisit(s.mem, th.asma);
    assert PageMet(s.mem, th.asma, d.pgstart, d.pgend, true);
    PinReportsPurge(s.mem, th.asma, d.pgstart, d.pgend, fresh');
  }

  /** A backing file, once set, stays, and so does the size, for as long as the area stays open. */
  lemma StepFreezesSize(s: Sys, step: Step, a: AreaId)
    requires SysInv(s) && Enabled(s, step) && a in s.mem.areas && s.mem.areas[a].file.Some?
    ensures a in Apply(s, step).mem.areas || step == ReleaseArea(a)
    ensures a in Apply(s, step).mem.areas ==>
      Apply(s, step).mem.areas[a].file == s.mem.areas[a].file && Apply(s, step).mem.areas[a].size == s.mem.areas[a].size
  {
    hide BoundsInv, ListsInv, LruInv, LockInv, CountInv, HolesInv, LostInv, RequestsInv, PinUnpin, Release, HeldAs;
    if step.Serve? {
      var th := s.threads[step.t];
      PinUnpinKeepsMemInv(s.mem, th.asma, th.cmd, th.offset, th.len, step.fresh');
    } else if step.ReleaseArea? {
      ReleaseForgetsArea(s.mem, step.a);
    }
  }

  lemma NextFreezesSize(s: Sys, s': Sys, a: AreaId)
    requires SysInv(s) && Next(s, s') && a in s.mem.areas && s.mem.areas[a].file.Some? && a in s'.mem.areas
    ensures s'.mem.areas[a].file == s.mem.areas[a].file && s'.mem.areas[a].size == s.mem.areas[a].size
  {
    hide SysInv, Apply, Enabled;
    var step :| Enabled(s, step) && s' == Apply(s, step);
    StepFreezesSize(s, step, a);
  }

  lemma {:induction false} RunFreezesSize(tr: seq<Sys>, i: nat, j: nat, a: AreaId)
    requires Run(tr) && i <= j < |tr| && (forall k :: i <= k <= j ==> a in tr[k].mem.areas)
    requires tr[i].mem.areas[a].file.Some?
    ensures tr[j].mem.areas[a].file == tr[i].mem.areas[a].file && tr[j].mem.areas[a].size == tr[i].mem.areas[a].size
    decreases j - i
  {
    hide SysInv, Next, Init;
    if i < j {
      RunFreezesSize(tr, i, j - 1, a);
      RunKeepsInv(tr, j - 1);
      NextFreezesSize(tr[j - 1], tr[j], a);
    }
  }

  /**
    The extra conditions of Enabled hold of themselves in every run: a request under the mutex
    with no shrinker in flight can be served, and a scan that finds the LRU list nonempty finds
    a live range of an open area with a backing file.
   */
  lemma StepsNeverStick(tr: seq<Sys>, i: nat, t: Tid, fresh': RangeId)
    requires Run(tr) && i < |tr| && t in tr[i].threads && fresh' !in tr[i].mem.ranges
    ensures tr[i].threads[t].Waiting? && tr[i].inflight == 0 ==> Enabled(tr[i], Serve(t, fresh'))
    ensures tr[i].threads[t].Scanning? && tr[i].mem.lru != [] ==> Enabled(tr[i], ScanMark(t))
  {
    RunKeepsInv(tr, i);
    hide LockInv, CountInv, HolesInv, LostInv, BoundsInv, ListsInv, Pages;
  }

  /**
    A request that waits while holding the mutex is never stuck: the shrinkers in flight can
    finish without the mutex, after which the count is zero and nothing else has changed.
   */
  lemma WaiterIsServed(s: Sys, t: Tid) returns (tr: seq<Sys>)
    requires SysInv(s) && t in s.threads && s.threads[t].Waiting?
    ensures tr != [] && tr[0] == s && (forall i :: 0 < i < |tr| ==> Next(tr[i - 1], tr[i]))
    ensures var e := tr[|tr| - 1];
            e.inflight == 0 && e.mem == s.mem && e.mutex == Some(t) && t in e.threads && e.threads[t] == s.threads[t]
    decreases s.inflight
  {
    hide SysInv, Next;
    WaiterHasMutex(s, t);
    if s.inflight == 0 {
      tr := [s];
    } else {
      var front, s1 := LandOne(s, t);
      CountIsNat(s1);
      var rest := WaiterIsServed(s1, t);
      tr := front + rest;
    }
  }

  lemma WaiterHasMutex(s: Sys, t: Tid)
    requires SysInv(s) && t in s.threads && s.threads[t].Waiting?
    ensures s.mutex == Some(t)
  {
  }

  /** One shrinker in flight finishes its punch and lowers the count. */
  lemma LandOne(s: Sys, t: Tid) returns (front: seq<Sys>, s1: Sys)
    requires SysInv(s) && t in s.threads && s.threads[t].Waiting? && s.inflight != 0
    ensures front != [] && front[0] == s && (forall i :: 0 < i < |front| ==> Next(front[i - 1], front[i]))
    ensures Next(front[|front| - 1], s1) && SysInv(s1) && s1.inflight == s.inflight - 1
    ensures s1.mem == s.mem && s1.mutex == s.mutex && t in s1.threads && s1.threads[t] == s.threads[t]
  {
    hide SysInv;
    WaiterHasMutex(s, t);
    var u := PickFlier(s, t);
    var mid := s;
    front := [s];
    if s.threads[u].Punching? {
      assert Enabled(s, ScanPunch(u, iset{}));
      StepKeepsInv(s, ScanPunch(u, iset{}));
      mid := Apply(s, ScanPunch(u, iset{}));
      front := [s, mid];
    }
    assert Enabled(mid, ScanLower(u));
    StepKeepsInv(mid, ScanLower(u));
    s1 := Apply(mid, ScanLower(u));
  }

  lemma CountIsNat(s: Sys)
    requires SysInv(s)
    ensures s.inflight >= 0
  {
  }

  lemma PickFlier(s: Sys, t: Tid) returns (u: Tid)
    requires SysInv(s) && s.inflight != 0 && t in s.threads && s.mutex == Some(t)
    requires s.threads[t].Waiting?
    ensures u in s.threads && u != t && (s.threads[u].Punching? || s.threads[u].Punched?)
  {
    assert Fliers(s) != {};
    u :| u in Fliers(s);
  }
}
