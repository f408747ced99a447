/** A shrinker of the protocol that no other thread interleaves with does what the scan loop does. */
module AshmemLoneScan {
  import opened AshmemRanges
  import opened AshmemPinning
  import opened AshmemIoctl
  import opened AshmemShrinking
  import opened AshmemProtocol

  /** A step of thread t between starting a scan and being done with it. */
  predicate ScanStep(step: Step, t: Tid) {
    (step.ScanMark? || step.ScanUnlock? || step.ScanPunch? || step.ScanLower? || step.ScanRetry? || step.ScanGiveUp?
      || step.ScanEmpty?)
    && step.t == t
  }

  /** The total a scan starts from decides its result, not what it does to the tables. */
  lemma {:induction false} ScanIgnoresFreed(m: Mem, nr: nat, f: nat, g: nat)
    requires Inv(m)
    ensures Scan(m, nr, f).0 == Scan(m, nr, g).0
    decreases |m.lru|
  {
    hide ListsInv, LruInv, MarkOldest, RangeSize, NoDup;
    InvLru(m);
    if m.lru != [] {
      MarkOldestKeepsInv(m);
      var m1, size := MarkOldest(m), RangeSize(m.ranges[m.lru[0]]);
      InvLru(m1);
      ScanIgnoresFreed(m1, (nr - 1) % WORD, (f + size) % WORD, (g + size) % WORD);
    }
  }

  /** The tables as the scan of thread t will leave them, if only t goes on. */
  ghost function Outcome(s: Sys, t: Tid): Mem
    requires Inv(s.mem) && t in s.threads
  {
    InvLru(s.mem);
    match s.threads[t]
    case Scanning(nr) => Scan(s.mem, nr, 0).0
    case Marked(_, nr) => AfterOne(s.mem, nr)
    case Punching(_, nr) => AfterOne(s.mem, nr)
    case Punched(_, nr) => AfterOne(s.mem, nr)
    case Lowered(nr) => AfterOne(s.mem, nr)
    case _ => s.mem
  }

  /** What is left of a scan once the range of this turn is marked. */
  ghost function AfterOne(m: Mem, nr: nat): Mem
    requires Inv(m)
  {
    InvLru(m);
    if (nr - 1) % WORD == 0 then m else Scan(m, (nr - 1) % WORD, 0).0
  }

  lemma MarkIsOneTurn(m: Mem, nr: nat)
    requires Inv(m) && m.lru != []
    ensures Inv(MarkOldest(m)) && NoDup(m.lru) && (forall i :: 0 <= i < |m.lru| ==> m.lru[i] in m.ranges)
    ensures Scan(m, nr, 0).0 == AfterOne(MarkOldest(m), nr)
  {
    hide ListsInv, LruInv, MarkOldest, RangeSize, NoDup;
    InvLru(m);
    MarkOldestKeepsInv(m);
    InvLru(MarkOldest(m));
    if (nr - 1) % WORD != 0 {
      ScanIgnoresFreed(MarkOldest(m), (nr - 1) % WORD, (0 + RangeSize(m.ranges[m.lru[0]])) % WORD, 0);
    }
  }

  /** The thread scans and nobody else has the mutex. */
  predicate Alone(s: Sys, t: Tid) {
    t in s.threads && !s.threads[t].Idle? && !s.threads[t].Waiting?
      && s.mutex == if HasMutex(s.threads[t]) then Some(t) else None
  }

  lemma StepKeepsOutcome(s: Sys, step: Step, t: Tid)
    requires Inv(s.mem) && Alone(s, t) && ScanStep(step, t) && Enabled(s, step)
    ensures var s' := Apply(s, step);
            && Inv(s'.mem) && t in s'.threads && Outcome(s', t) == Outcome(s, t)
            && (s'.threads[t].Idle? || Alone(s', t))
  {
    hide Inv, MarkOldest, Scan, Pages, RangeSize;
    InvLru(s.mem);
    if step.ScanMark? {
      MarkIsOneTurn(s.mem, s.threads[t].nr);
    } else if step.ScanEmpty? {
      EmptyScan(s.mem, s.threads[t].nr);
    }
  }

  lemma EmptyScan(m: Mem, nr: nat)
    requires Inv(m) && m.lru == []
    ensures Scan(m, nr, 0).0 == m
  {
    InvLru(m);
  }

  /** From state i to state j thread t starts a scan and goes through with it, and nothing else happens. */
  ghost predicate LoneScan(tr: seq<Sys>, i: nat, j: nat, t: Tid, nr: nat)
    requires i < j < |tr|
  {
    && Enabled(tr[i], ScanStart(t, nr)) && tr[i + 1] == Apply(tr[i], ScanStart(t, nr))
    && (forall k :: i < k < j ==> ScanNext(tr[k], tr[k + 1], t) && t in tr[k].threads && !tr[k].threads[t].Idle?)
    && t in tr[j].threads && tr[j].threads[t].Idle?
  }

  ghost predicate ScanNext(s: Sys, s': Sys, t: Tid) {
    exists step :: ScanStep(step, t) && Enabled(s, step) && s' == Apply(s, step)
  }

  lemma {:induction false} LoneScanOutcome(tr: seq<Sys>, i: nat, k: nat, j: nat, t: Tid, nr: nat)
    requires i < k <= j < |tr| && LoneScan(tr, i, j, t, nr) && Inv(tr[i].mem)
    ensures Inv(tr[i].mem) && NoDup(tr[i].mem.lru) && forall n :: 0 <= n < |tr[i].mem.lru| ==>
            tr[i].mem.lru[n] in tr[i].mem.ranges
    ensures Inv(tr[k].mem) && t in tr[k].threads && (tr[k].threads[t].Idle? || Alone(tr[k], t))
    ensures Outcome(tr[k], t) == Scan(tr[i].mem, nr % WORD, 0).0
    decreases k
  {
    hide Inv, Scan, Pages, RangeSize, Apply, Enabled, Outcome;
    InvLru(tr[i].mem);
    if k == i + 1 {
      StartsAlone(tr[i], t, nr);
    } else {
      LoneScanOutcome(tr, i, k - 1, j, t, nr);
      assert ScanNext(tr[k - 1], tr[k - 1 + 1], t);
      var step :| ScanStep(step, t) && Enabled(tr[k - 1], step) && tr[k] == Apply(tr[k - 1], step);
      StepKeepsOutcome(tr[k - 1], step, t);
    }
  }

  lemma StartsAlone(s: Sys, t: Tid, nr: nat)
    requires Inv(s.mem) && Enabled(s, ScanStart(t, nr))
    ensures var s' := Apply(s, ScanStart(t, nr));
            Inv(s'.mem) && Alone(s', t) && NoDup(s.mem.lru)
            && (forall n :: 0 <= n < |s.mem.lru| ==> s.mem.lru[n] in s.mem.ranges)
            && Outcome(s', t) == Scan(s.mem, nr % WORD, 0).0
  {
    hide Inv, Scan, Pages, RangeSize;
    InvLru(s.mem);
  }

  /** In every run a scan that goes through alone leaves the tables as the scan loop does. */
  lemma LoneScanIsScan(tr: seq<Sys>, i: nat, j: nat, t: Tid, nr: nat)
    requires Run(tr) && i < j < |tr| && LoneScan(tr, i, j, t, nr)
    ensures Inv(tr[i].mem) && NoDup(tr[i].mem.lru) && forall n :: 0 <= n < |tr[i].mem.lru| ==>
            tr[i].mem.lru[n] in tr[i].mem.ranges
    ensures tr[j].mem == Scan(tr[i].mem, nr % WORD, 0).0
  {
    hide Run, LoneScan, Inv, Scan;
    RunInv(tr, i);
    LoneScanOutcome(tr, i, j, j, t, nr);
    LoneScanEnds(tr, i, j, t, nr);
  }

  lemma LoneScanEnds(tr: seq<Sys>, i: nat, j: nat, t: Tid, nr: nat)
    requires i < j < |tr| && LoneScan(tr, i, j, t, nr)
    ensures t in tr[j].threads && tr[j].threads[t].Idle?
  {
  }

  lemma RunInv(tr: seq<Sys>, i: nat)
    requires Run(tr) && i < |tr|
    ensures Inv(tr[i].mem)
  {
    hide Inv;
    RunKeepsInv(tr, i);
  }
}
