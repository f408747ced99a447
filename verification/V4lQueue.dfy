/**
  The memory mappings of a V4L2 buffer queue: requested, created, mapped and released in any order,
  with any call failing.
 */
module V4lQueue {

  const MAX_FRAME := 32
  const MAX_PLANES := 8

  datatype Memory = Mmap | DmaBuf | UserPtr

  type Cell = (nat, nat)

  /**
   * The queue, the process's address space, and the history of both system
   * calls. `cells` holds the non-NULL entries of the table of mappings by
   * buffer and plane; `live` gives every mapped address its length.
   */
  datatype Queue = Queue(
    memory: Memory,
    buffers: nat,
    mappings: nat,
    planes: nat,
    lengths: seq<nat>,
    cells: map<Cell, nat>,
    live: map<nat, nat>,
    calls: nat,
    mapped: seq<(nat, nat)>,
    unmapped: seq<(nat, nat)>)

  /** The kernel's answer to the n-th mmap or munmap. */
  datatype Choice = Grant(addr: nat) | Refuse
  type Os = nat -> Choice

  /** mmap yields an address that is not NULL and not in use, or fails. */
  predicate Granted(q: Queue, os: Os) {
    os(q.calls).Grant? && os(q.calls).addr != 0 && os(q.calls).addr !in q.live
  }

  predicate Sane(q: Queue) {
    q.buffers <= MAX_FRAME && q.planes <= MAX_PLANES && |q.lengths| == MAX_PLANES
  }

  function MapOne(q: Queue, os: Os, c: Cell): (Queue, bool)
    requires c.1 < |q.lengths|
  {
    if Granted(q, os) then
      var a, len := os(q.calls).addr, q.lengths[c.1];
      (q.(calls := q.calls + 1, live := q.live[a := len], cells := q.cells[c := a],
          mapped := q.mapped + [(a, len)]), true)
    else (q.(calls := q.calls + 1), false)
  }

  /** An entry that is NULL is skipped. */
  function UnmapOne(q: Queue, os: Os, c: Cell): (Queue, bool)
    requires c.1 < |q.lengths|
  {
    if c !in q.cells then (q, true)
    else if os(q.calls).Refuse? then (q.(calls := q.calls + 1), false)
    else
      var a := q.cells[c];
      (q.(calls := q.calls + 1, live := q.live - {a}, cells := q.cells - {c},
          unmapped := q.unmapped + [(a, q.lengths[c.1])]), true)
  }

  function Row(b: nat, planes: nat): (r: seq<Cell>)
    ensures |r| == planes && forall i :: 0 <= i < planes ==> r[i] == (b, i)
  {
    seq(planes, i requires 0 <= i => (b, i))
  }

  /** The cells of buffers from..end, in the order both loops take them. */
  function Rows(from: nat, end: nat, planes: nat): (r: seq<Cell>)
    ensures forall c :: c in r <==> from <= c.0 < end && c.1 < planes
    decreases end - from
  {
    if from >= end then [] else
      var rest := Rows(from + 1, end, planes);
      assert forall c: Cell :: c in Row(from, planes) <==> c.0 == from && c.1 < planes by {
        forall c: Cell | c.0 == from && c.1 < planes
          ensures c in Row(from, planes)
        {
          assert Row(from, planes)[c.1] == c;
        }
      }
      Row(from, planes) + rest
  }

  predicate Fits(q: Queue, todo: seq<Cell>) { forall i :: 0 <= i < |todo| ==> todo[i].1 < |q.lengths| }

  function MapAll(q: Queue, os: Os, todo: seq<Cell>): (r: (Queue, bool))
    requires Fits(q, todo)
    ensures r.0.lengths == q.lengths && r.0.planes == q.planes && r.0.buffers == q.buffers
    decreases |todo|
  {
    if todo == [] then (q, true) else
      var (q1, ok) := MapOne(q, os, todo[0]);
      if ok then MapAll(q1, os, todo[1..]) else (q1, false)
  }

  function UnmapAll(q: Queue, os: Os, todo: seq<Cell>): (r: (Queue, bool))
    requires Fits(q, todo)
    ensures r.0.lengths == q.lengths && r.0.planes == q.planes && r.0.buffers == q.buffers
    decreases |todo|
  {
    if todo == [] then (q, true) else
      var (q1, ok) := UnmapOne(q, os, todo[0]);
      if ok then UnmapAll(q1, os, todo[1..]) else (q1, false)
  }

  function Max(a: nat, b: nat): nat { if a < b then b else a }

  /** v4l_queue_mmap_bufs; on a failure the mapping count is not updated. */
  function MmapBufs(q: Queue, os: Os, from: nat): (r: (Queue, bool))
    requires Sane(q)
    ensures Sane(r.0)
  {
    if q.memory == UserPtr then (q, true) else
      var (q1, ok) := MapAll(q, os, Rows(from, q.buffers, q.planes));
      if ok then (q1.(mappings := Max(from, q.buffers)), true) else (q1, false)
  }

  /** v4l_queue_munmap_bufs. */
  function MunmapBufs(q: Queue, os: Os, from: nat): (r: (Queue, bool))
    requires Sane(q)
    ensures Sane(r.0)
  {
    if q.memory == UserPtr then (q, true) else
      var (q1, ok) := UnmapAll(q, os, Rows(from, q.mappings, q.planes));
      if ok then (q1.(mappings := from), true) else (q1, false)
  }

  /** v4l_queue_g_mmapping; NULL is 0. */
  function GMmapping(q: Queue, index: nat, plane: nat): nat {
    if index >= q.mappings || plane >= q.planes then 0
    else if (index, plane) in q.cells then q.cells[(index, plane)] else 0
  }

  /** What QUERYBUF reports of a buffer: planes and their lengths. */
  datatype Layout = Layout(planes: nat, lengths: seq<nat>)
  datatype Queried = NoAnswer | Answered(layout: Layout)

  datatype Op =
    | Request(count: nat, answers: nat -> Queried)
    | Create(count: nat, answers: nat -> Queried)
    | MapFrom(from: nat)
    | UnmapFrom(from: nat)

  predicate SaneLayout(x: Queried) {
    x.NoAnswer? || (x.layout.planes <= MAX_PLANES && |x.layout.lengths| == MAX_PLANES)
  }

  /** Only the lengths of the planes reported are replaced. */
  function Relaid(lengths: seq<nat>, x: Layout): seq<nat> {
    if x.planes <= |lengths| && x.planes <= |x.lengths| then x.lengths[..x.planes] + lengths[x.planes..] else lengths
  }

  /** v4l_queue_querybufs from a buffer on: buffer 0 sets the planes and lengths, any missing answer ends it. */
  function QueryBufs(q: Queue, from: nat, answers: nat -> Queried): (Queue, bool) {
    var first := answers(0);
    (if from == 0 < q.buffers && first.Answered?
     then q.(planes := first.layout.planes, lengths := Relaid(q.lengths, first.layout)) else q,
     forall b :: from <= b < q.buffers ==> answers(b).Answered?)
  }

  /** The lengths under which the table's mappings were made are still the queue's. */
  predicate LengthsKept(q: Queue, q': Queue) {
    forall c :: c in q.cells && c.1 < |q.lengths| && c.1 < |q'.lengths| ==> q'.lengths[c.1] == q.lengths[c.1]
  }

  /**
   * What callers and the kernel must keep to: never more than VIDEO_MAX_FRAME
   * buffers, and no other plane lengths while the table still holds mappings.
   */
  predicate Allowed(q: Queue, op: Op) {
    match op
    case Request(n, answers) =>
      n <= MAX_FRAME && SaneLayout(answers(0)) && LengthsKept(q, QueryBufs(q.(buffers := n), 0, answers).0)
    case Create(n, answers) =>
      q.buffers + n <= MAX_FRAME && SaneLayout(answers(0))
      && LengthsKept(q, QueryBufs(q.(buffers := q.buffers + n), q.buffers, answers).0)
    case MapFrom(_) => true
    case UnmapFrom(_) => true
  }

  function Apply(q: Queue, os: Os, op: Op): (r: (Queue, bool))
    requires Sane(q) && Allowed(q, op)
    ensures Sane(r.0)
  {
    match op
    case Request(n, answers) => QueryBufs(q.(buffers := n), 0, answers)
    case Create(n, answers) => QueryBufs(q.(buffers := q.buffers + n), q.buffers, answers)
    case MapFrom(from) => MmapBufs(q, os, from)
    case UnmapFrom(from) => MunmapBufs(q, os, from)
  }

  // What every call keeps, whatever fails and wherever it starts.

  /** Every table entry is a live mapping of its plane's length, and no two entries share one. */
  predicate Sound(q: Queue) {
    Sane(q)
    && (forall c :: c in q.cells ==>
          c.1 < MAX_PLANES && q.cells[c] != 0 && q.cells[c] in q.live && q.live[q.cells[c]] == q.lengths[c.1])
    && (forall c, d :: c in q.cells && d in q.cells && q.cells[c] == q.cells[d] ==> c == d)
  }

  /** The live mappings as address and length. */
  function Items(m: map<nat, nat>): set<(nat, nat)> { set a | a in m :: (a, m[a]) }

  /** Every mapping ever made is live or was unmapped once, in both cases under its own length. */
  predicate Conserved(q: Queue) {
    multiset(q.mapped) == multiset(q.unmapped) + multiset(Items(q.live))
  }

  lemma MapOneSound(q: Queue, os: Os, c: Cell)
    requires Sound(q) && c.1 < MAX_PLANES
    ensures Sound(MapOne(q, os, c).0)
  {
  }

  lemma ItemsAdd(m: map<nat, nat>, a: nat, len: nat)
    requires a !in m
    ensures multiset(Items(m[a := len])) == multiset(Items(m)) + multiset{(a, len)}
  {
    assert Items(m[a := len]) == Items(m) + {(a, len)} by {
      forall k | k in m
        ensures m[a := len][k] == m[k] && (k, m[k]) in Items(m[a := len])
      {
      }
      var n := m[a := len];
      assert a in n && n[a] == len && (a, n[a]) in Items(n);
    }
  }

  lemma ItemsDrop(m: map<nat, nat>, a: nat)
    requires a in m
    ensures multiset(Items(m)) == multiset(Items(m - {a})) + multiset{(a, m[a])}
  {
    var n := m - {a};
    ItemsAdd(n, a, m[a]);
    assert n[a := m[a]] == m;
  }

  lemma MapOneConserves(q: Queue, os: Os, c: Cell)
    requires Conserved(q) && c.1 < |q.lengths|
    ensures Conserved(MapOne(q, os, c).0)
  {
    if Granted(q, os) {
      ItemsAdd(q.live, os(q.calls).addr, q.lengths[c.1]);
    }
  }

  lemma UnmapOneSound(q: Queue, os: Os, c: Cell)
    requires Sound(q) && c.1 < MAX_PLANES
    ensures Sound(UnmapOne(q, os, c).0)
  {
  }

  lemma UnmapOneConserves(q: Queue, os: Os, c: Cell)
    requires Sound(q) && Conserved(q) && c.1 < |q.lengths|
    ensures Conserved(UnmapOne(q, os, c).0)
  {
    if c in q.cells && os(q.calls).Grant? {
      ItemsDrop(q.live, q.cells[c]);
    }
  }

  lemma {:induction false} MapAllKeeps(q: Queue, os: Os, todo: seq<Cell>)
    requires Sound(q) && Conserved(q) && Fits(q, todo)
    ensures var q' := MapAll(q, os, todo).0; Sound(q') && Conserved(q')
    decreases |todo|
  {
    hide Sound, Conserved, MapOne;
    if todo != [] {
      assert Sane(q) by { SoundIsSane(q); }
      MapOneSound(q, os, todo[0]);
      MapOneConserves(q, os, todo[0]);
      MapOneShape(q, os, todo[0]);
      var (q1, ok) := MapOne(q, os, todo[0]);
      if ok {
        MapAllKeeps(q1, os, todo[1..]);
      }
    }
  }

  lemma SoundIsSane(q: Queue)
    requires Sound(q)
    ensures Sane(q)
  {
  }

  lemma MapOneShape(q: Queue, os: Os, c: Cell)
    requires c.1 < |q.lengths|
    ensures var q' := MapOne(q, os, c).0;
            q'.lengths == q.lengths && q'.planes == q.planes && q'.buffers == q.buffers && q'.mappings == q.mappings
            && q'.memory == q.memory
  {
  }

  lemma UnmapOneShape(q: Queue, os: Os, c: Cell)
    requires c.1 < |q.lengths|
    ensures var q' := UnmapOne(q, os, c).0;
            q'.lengths == q.lengths && q'.planes == q.planes && q'.buffers == q.buffers && q'.mappings == q.mappings
            && q'.memory == q.memory
  {
  }

  lemma {:induction false} UnmapAllKeeps(q: Queue, os: Os, todo: seq<Cell>)
    requires Sound(q) && Conserved(q) && Fits(q, todo)
    ensures var q' := UnmapAll(q, os, todo).0; Sound(q') && Conserved(q')
    decreases |todo|
  {
    hide Sound, Conserved, UnmapOne;
    if todo != [] {
      SoundIsSane(q);
      UnmapOneSound(q, os, todo[0]);
      UnmapOneConserves(q, os, todo[0]);
      UnmapOneShape(q, os, todo[0]);
      var (q1, ok) := UnmapOne(q, os, todo[0]);
      if ok {
        UnmapAllKeeps(q1, os, todo[1..]);
      }
    }
  }

  /** Every call keeps the table sound and the mappings conserved, successful or not. */
  lemma ApplyKeepsSound(q: Queue, os: Os, op: Op)
    requires Sound(q) && Conserved(q) && Allowed(q, op)
    ensures var q' := Apply(q, os, op).0; Sound(q') && Conserved(q')
  {
    hide MapAll, UnmapAll, Sound, Conserved;
    SoundIsSane(q);
    match op {
      case MapFrom(from) =>
        if q.memory != UserPtr {
          var todo := Rows(from, q.buffers, q.planes);
          MapAllKeeps(q, os, todo);
          SoundAtAnyCount(MapAll(q, os, todo).0, Max(from, q.buffers));
        }
      case UnmapFrom(from) =>
        if q.memory != UserPtr {
          var todo := Rows(from, q.mappings, q.planes);
          UnmapAllKeeps(q, os, todo);
          SoundAtAnyCount(UnmapAll(q, os, todo).0, from);
        }
      case Request(n, answers) =>
        RequestKeepsSound(q, n, 0, answers);
      case Create(n, answers) =>
        RequestKeepsSound(q, q.buffers + n, q.buffers, answers);
    }
  }

  lemma RequestKeepsSound(q: Queue, n: nat, from: nat, answers: nat -> Queried)
    requires Sound(q) && Conserved(q) && n <= MAX_FRAME && SaneLayout(answers(0))
    requires LengthsKept(q, QueryBufs(q.(buffers := n), from, answers).0)
    ensures var q' := QueryBufs(q.(buffers := n), from, answers).0; Sound(q') && Conserved(q')
  {
    SoundIffLengthsKept(q.(buffers := n), from, answers);
  }

  /**
   * Asking for buffers keeps the table sound, whatever the kernel answers,
   * exactly if no answer sets the lengths or nothing is mapped.
   */
  lemma RequestKeepsSoundIff(q: Queue, n: nat, from: nat)
    requires Sound(q) && n <= MAX_FRAME
    ensures (forall answers: nat -> Queried ::
               SaneLayout(answers(0)) ==> Sound(QueryBufs(q.(buffers := n), from, answers).0)) <==>
            n == 0 || from > 0 || q.cells == map[]
  {
    if n == 0 || from > 0 || q.cells == map[] {
      forall answers: nat -> Queried | SaneLayout(answers(0))
        ensures Sound(QueryBufs(q.(buffers := n), from, answers).0)
      {
        SoundIffLengthsKept(q.(buffers := n), from, answers);
      }
    } else {
      var c :| c in q.cells;
      var longer := q.lengths[c.1 := q.lengths[c.1] + 1];
      var answers: nat -> Queried := (b: nat) => Answered(Layout(MAX_PLANES, longer));
      SoundIffLengthsKept(q.(buffers := n), from, answers);
      var q' := QueryBufs(q.(buffers := n), from, answers).0;
      assert q'.lengths == longer;
      assert SaneLayout(answers(0)) && !LengthsKept(q.(buffers := n), q');
    }
  }

  /** For one answer: exactly if no mapping in the table changes its plane's length. */
  lemma SoundIffLengthsKept(q: Queue, from: nat, answers: nat -> Queried)
    requires Sound(q) && SaneLayout(answers(0))
    ensures Sound(QueryBufs(q, from, answers).0) <==> LengthsKept(q, QueryBufs(q, from, answers).0)
  {
    var q' := QueryBufs(q, from, answers).0;
    if Sound(q') {
      forall c | c in q.cells
        ensures c.1 < MAX_PLANES && q'.lengths[c.1] == q.lengths[c.1]
      {
        assert c in q'.cells && q'.cells[c] == q.cells[c];
      }
    }
  }

  /** A new queue. */
  function Init(memory: Memory): Queue {
    Queue(memory, 0, 0, 0, seq(MAX_PLANES, _ => 0), map[], map[], 0, [], [])
  }

  predicate AllAllowed(q: Queue, os: Os, ops: seq<Op>)
    requires Sane(q)
    decreases |ops|
  {
    ops == [] || (Allowed(q, ops[0]) && AllAllowed(Apply(q, os, ops[0]).0, os, ops[1..]))
  }

  function Run(q: Queue, os: Os, ops: seq<Op>): (r: Queue)
    requires Sane(q) && AllAllowed(q, os, ops)
    ensures Sane(r)
    decreases |ops|
  {
    if ops == [] then q else Run(Apply(q, os, ops[0]).0, os, ops[1..])
  }

  lemma {:induction false} RunKeepsSound(q: Queue, os: Os, ops: seq<Op>)
    requires Sound(q) && Conserved(q) && AllAllowed(q, os, ops)
    ensures Sound(Run(q, os, ops)) && Conserved(Run(q, os, ops))
    decreases |ops|
  {
    hide Apply, Sound, Conserved, Allowed;
    if ops != [] {
      SoundIsSane(q);
      ApplyKeepsSound(q, os, ops[0]);
      RunKeepsSound(Apply(q, os, ops[0]).0, os, ops[1..]);
    }
  }

  /**
   * Over every run, with any call failing and any release retried: nothing is
   * unmapped that was not mapped, nothing twice, everything under its own
   * length, and what was not unmapped is still live.
   */
  lemma EveryRunConserves(memory: Memory, os: Os, ops: seq<Op>)
    requires AllAllowed(Init(memory), os, ops)
    ensures var q := Run(Init(memory), os, ops);
            Sound(q) && multiset(q.unmapped) <= multiset(q.mapped)
            && multiset(q.mapped) - multiset(q.unmapped) == multiset(Items(q.live))
  {
    var q0 := Init(memory);
    assert Items(q0.live) == {};
    RunKeepsSound(q0, os, ops);
  }

  // Queues used as intended: mapped from the count, released down to at most the count.

  /** The table is exactly the buffers below the count, and no mapping is live outside the table. */
  ghost predicate Tight(q: Queue) {
    Sound(q)
    && (forall c :: c in q.cells <==> c.0 < q.mappings && c.1 < q.planes)
    && (forall a :: a in q.live ==> a in q.cells.Values)
  }

  /** After a failed release some entries below the count are NULL; still nothing is live outside the table. */
  ghost predicate Loose(q: Queue) {
    Sound(q)
    && (forall c :: c in q.cells ==> c.0 < q.mappings && c.1 < q.planes)
    && (forall a :: a in q.live ==> a in q.cells.Values)
  }

  predicate Intended(q: Queue, op: Op) {
    Allowed(q, op) &&
    match op
    case Request(_, _) => q.mappings == 0
    case Create(_, _) => q.buffers == 0 ==> q.mappings == 0
    case MapFrom(from) => from == q.mappings
    case UnmapFrom(from) => from <= q.mappings
  }

  /** Mapping fresh cells: each todo cell up to a failure gains an entry; the others stay as they are. */
  lemma {:induction false} MapAllFills(q: Queue, os: Os, todo: seq<Cell>)
    requires Fits(q, todo)
    ensures var (q', ok) := MapAll(q, os, todo);
            q'.lengths == q.lengths && q'.planes == q.planes && q'.buffers == q.buffers && q'.mappings == q.mappings
            && q'.memory == q.memory
            && (ok ==> forall c :: c in q'.cells <==> c in q.cells || c in todo)
            && (forall c :: c in q.cells ==> c in q'.cells)
            && (forall c :: c in q'.cells ==> c in q.cells || c in todo)
            && (forall a :: a in q.live ==> a in q'.live)
    decreases |todo|
  {
    if todo != [] {
      var (q1, ok) := MapOne(q, os, todo[0]);
      assert todo == [todo[0]] + todo[1..];
      if ok {
        MapAllFills(q1, os, todo[1..]);
      }
    }
  }

  predicate Distinct(todo: seq<Cell>) { forall i, j :: 0 <= i < j < |todo| ==> todo[i] != todo[j] }

  predicate Disjoint(q: Queue, todo: seq<Cell>) {
    (forall i :: 0 <= i < |todo| ==> todo[i] !in q.cells) && Distinct(todo)
  }

  predicate NoStray(q: Queue) { forall a :: a in q.live ==> a in q.cells.Values }

  lemma {:induction false} MapAllNoStray(q: Queue, os: Os, todo: seq<Cell>)
    requires Fits(q, todo) && Disjoint(q, todo) && NoStray(q)
    ensures NoStray(MapAll(q, os, todo).0)
    decreases |todo|
  {
    if todo != [] {
      MapOneNoStray(q, os, todo[0]);
      var (q1, ok) := MapOne(q, os, todo[0]);
      if ok {
        hide NoStray;
        MapAllNoStray(q1, os, todo[1..]);
      }
    }
  }

  lemma MapOneNoStray(q: Queue, os: Os, c: Cell)
    requires c.1 < |q.lengths| && c !in q.cells && NoStray(q)
    ensures NoStray(MapOne(q, os, c).0)
  {
    var q' := MapOne(q, os, c).0;
    forall a | a in q'.live
      ensures a in q'.cells.Values
    {
      if a in q.live {
        var d :| d in q.cells && q.cells[d] == a;
        assert q'.cells[d] == a;
      } else {
        assert q'.cells[c] == a;
      }
    }
  }

  lemma {:induction false} RowsDistinct(from: nat, end: nat, planes: nat)
    ensures Distinct(Rows(from, end, planes))
    decreases end - from
  {
    if from < end {
      RowsDistinct(from + 1, end, planes);
      var rest := Rows(from + 1, end, planes);
      var r := Rows(from, end, planes);
      assert r == Row(from, planes) + rest;
      assert forall i :: 0 <= i < |rest| ==> rest[i] in rest;
      forall i, j | 0 <= i < j < |r|
        ensures r[i] != r[j]
      {
        assert i < planes ==> r[i] == (from, i);
        assert j < planes ==> r[j] == (from, j);
        assert planes <= j ==> r[j] == rest[j - planes] && rest[j - planes].0 > from;
        assert planes <= i ==> r[i] == rest[i - planes];
      }
    }
  }

  lemma {:induction false} UnmapAllClears(q: Queue, os: Os, todo: seq<Cell>)
    requires Fits(q, todo)
    ensures var (q', ok) := UnmapAll(q, os, todo);
            q'.lengths == q.lengths && q'.planes == q.planes && q'.buffers == q.buffers && q'.mappings == q.mappings
            && q'.memory == q.memory
            && (ok ==> forall c :: c in q'.cells <==> c in q.cells && c !in todo)
            && (forall c :: c in q'.cells ==> c in q.cells)
    decreases |todo|
  {
    if todo != [] {
      var (q1, ok) := UnmapOne(q, os, todo[0]);
      assert todo == [todo[0]] + todo[1..];
      if ok {
        UnmapAllClears(q1, os, todo[1..]);
      }
    }
  }

  lemma {:induction false} UnmapAllNoStray(q: Queue, os: Os, todo: seq<Cell>)
    requires Fits(q, todo) && NoStray(q)
    ensures NoStray(UnmapAll(q, os, todo).0)
    decreases |todo|
  {
    if todo != [] {
      UnmapOneNoStray(q, os, todo[0]);
      var (q1, ok) := UnmapOne(q, os, todo[0]);
      if ok {
        hide NoStray;
        UnmapAllNoStray(q1, os, todo[1..]);
      }
    }
  }

  lemma UnmapOneNoStray(q: Queue, os: Os, c: Cell)
    requires c.1 < |q.lengths| && NoStray(q)
    ensures NoStray(UnmapOne(q, os, c).0)
  {
    var q' := UnmapOne(q, os, c).0;
    forall a | a in q'.live
      ensures a in q'.cells.Values
    {
      var d :| d in q.cells && q.cells[d] == a;
      assert d in q'.cells && q'.cells[d] == a;
    }
  }

  /** Intended use, every call successful: the table stays exact and nothing leaks. */
  lemma ApplyKeepsTight(q: Queue, os: Os, op: Op)
    requires Tight(q) && Conserved(q) && Intended(q, op) && Apply(q, os, op).1
    ensures Tight(Apply(q, os, op).0)
  {
    hide Tight, Conserved, MmapBufs, MunmapBufs;
    match op {
      case MapFrom(from) => MapKeepsTight(q, os);
      case UnmapFrom(from) => UnmapKeepsTight(q, os, from);
      case _ => RequestKeepsTight(q, os, op);
    }
  }

  lemma RequestKeepsTight(q: Queue, os: Os, op: Op)
    requires Tight(q) && (op.Request? || op.Create?) && Intended(q, op)
    ensures Tight(Apply(q, os, op).0)
  {
  }

  lemma MapKeepsTight(q: Queue, os: Os)
    requires Tight(q) && Conserved(q) && MmapBufs(q, os, q.mappings).1
    ensures Tight(MmapBufs(q, os, q.mappings).0)
  {
    hide Conserved, MapAll, Sound, NoStray;
    SoundIsSane(q);
    if q.memory != UserPtr {
      var todo := Rows(q.mappings, q.buffers, q.planes);
      RowsAreFree(q);
      TightNoStray(q);
      MapAllFills(q, os, todo);
      MapAllNoStray(q, os, todo);
      MapAllKeeps(q, os, todo);
      var q1 := MapAll(q, os, todo).0;
      SoundAtAnyCount(q1, Max(q.mappings, q.buffers));
      NoStrayIs(q1);
    }
  }

  lemma UnmapKeepsTight(q: Queue, os: Os, from: nat)
    requires Tight(q) && Conserved(q) && from <= q.mappings && MunmapBufs(q, os, from).1
    ensures Tight(MunmapBufs(q, os, from).0)
  {
    hide Conserved, UnmapAll, Sound, NoStray;
    SoundIsSane(q);
    if q.memory != UserPtr {
      var todo := Rows(from, q.mappings, q.planes);
      TightNoStray(q);
      UnmapAllClears(q, os, todo);
      UnmapAllNoStray(q, os, todo);
      UnmapAllKeeps(q, os, todo);
      var q1 := UnmapAll(q, os, todo).0;
      SoundAtAnyCount(q1, from);
      NoStrayIs(q1);
    }
  }

  lemma RowsAreFree(q: Queue)
    requires Tight(q)
    ensures Disjoint(q, Rows(q.mappings, q.buffers, q.planes))
  {
    var todo := Rows(q.mappings, q.buffers, q.planes);
    RowsDistinct(q.mappings, q.buffers, q.planes);
    forall i | 0 <= i < |todo|
      ensures todo[i] !in q.cells
    {
      assert todo[i] in todo;
    }
  }

  lemma TightNoStray(q: Queue)
    requires Tight(q)
    ensures NoStray(q)
  {
  }

  lemma NoStrayIs(q: Queue)
    requires NoStray(q)
    ensures forall a :: a in q.live ==> a in q.cells.Values
  {
  }

  lemma SoundAtAnyCount(q: Queue, n: nat)
    requires Sound(q)
    ensures Sound(q.(mappings := n)) && (Conserved(q) ==> Conserved(q.(mappings := n)))
  {
  }

  /** A run of intended calls, all of them successful. */
  predicate AllIntended(q: Queue, os: Os, ops: seq<Op>)
    requires Sane(q)
    decreases |ops|
  {
    ops == [] || (Intended(q, ops[0]) && Apply(q, os, ops[0]).1 && AllIntended(Apply(q, os, ops[0]).0, os, ops[1..]))
  }

  lemma {:induction false} RunKeepsTight(q: Queue, os: Os, ops: seq<Op>)
    requires Tight(q) && Conserved(q) && AllIntended(q, os, ops)
    ensures AllAllowed(q, os, ops) && Tight(Run(q, os, ops)) && Conserved(Run(q, os, ops))
    decreases |ops|
  {
    hide Apply, Tight, Sound, Conserved, Allowed;
    if ops != [] {
      TightIsSound(q);
      AllowedIfIntended(q, ops[0]);
      ApplyKeepsTight(q, os, ops[0]);
      ApplyKeepsSound(q, os, ops[0]);
      RunKeepsTight(Apply(q, os, ops[0]).0, os, ops[1..]);
    }
  }

  lemma TightIsSound(q: Queue)
    requires Tight(q)
    ensures Sound(q)
  {
  }

  lemma AllowedIfIntended(q: Queue, op: Op)
    requires Intended(q, op)
    ensures Allowed(q, op)
  {
  }

  /** After any run of intended, successful calls the getter is non-NULL exactly for the mapped buffers and planes. */
  lemma EveryIntendedRun(memory: Memory, os: Os, ops: seq<Op>, index: nat, plane: nat)
    requires AllIntended(Init(memory), os, ops)
    ensures AllAllowed(Init(memory), os, ops)
    ensures var q := Run(Init(memory), os, ops);
            GMmapping(q, index, plane) != 0 <==> index < q.mappings && plane < q.planes
  {
    hide Run, AllAllowed, AllIntended;
    var q0 := Init(memory);
    assert Items(q0.live) == {};
    RunKeepsTight(q0, os, ops);
    GMmappingIff(Run(q0, os, ops), index, plane);
  }

  /** The getter tells the mapped buffers and planes exactly. */
  lemma GMmappingIff(q: Queue, index: nat, plane: nat)
    requires Tight(q)
    ensures GMmapping(q, index, plane) != 0 <==> index < q.mappings && plane < q.planes
  {
    var c := (index, plane);
    if index < q.mappings && plane < q.planes {
      assert c in q.cells;
    }
  }

  /** Releases keep a queue free of leaks even when they fail. */
  lemma ReleaseKeepsLoose(q: Queue, os: Os, from: nat)
    requires Loose(q) && Conserved(q) && from <= q.mappings
    ensures Loose(MunmapBufs(q, os, from).0)
  {
    hide Conserved, UnmapAll, Sound, NoStray;
    SoundIsSane(q);
    if q.memory != UserPtr {
      var todo := Rows(from, q.mappings, q.planes);
      LooseNoStray(q);
      UnmapAllClears(q, os, todo);
      UnmapAllNoStray(q, os, todo);
      UnmapAllKeeps(q, os, todo);
      var q1 := UnmapAll(q, os, todo).0;
      SoundAtAnyCount(q1, from);
      NoStrayIs(q1);
    }
  }

  lemma LooseNoStray(q: Queue)
    requires Loose(q)
    ensures NoStray(q)
  {
  }

  /** The release attempted until it succeeds; every attempt starts over at buffer 0. */
  function Retry(q: Queue, os: Os, attempts: nat): (r: Queue)
    requires Sane(q)
    ensures Sane(r)
    decreases attempts
  {
    if attempts == 0 then q else
      var (q1, ok) := MunmapBufs(q, os, 0);
      if ok then q1 else Retry(q1, os, attempts - 1)
  }

  lemma {:induction false} RetryKeepsLoose(q: Queue, os: Os, attempts: nat)
    requires Loose(q) && Conserved(q)
    ensures var q' := Retry(q, os, attempts);
            Loose(q') && Conserved(q') && q'.mapped == q.mapped && q'.memory == q.memory
    decreases attempts
  {
    hide Loose, Conserved, MunmapBufs;
    if attempts > 0 {
      LooseIsSound(q);
      ReleaseKeepsLoose(q, os, 0);
      ReleaseConserves(q, os, 0);
      var (q1, ok) := MunmapBufs(q, os, 0);
      if !ok {
        LooseIsSound(q1);
        RetryKeepsLoose(q1, os, attempts - 1);
      }
    }
  }

  lemma LooseIsSound(q: Queue)
    requires Loose(q)
    ensures Sound(q) && Sane(q)
  {
  }

  lemma ReleaseConserves(q: Queue, os: Os, from: nat)
    requires Sound(q) && Conserved(q)
    ensures var q' := MunmapBufs(q, os, from).0; Conserved(q') && q'.mapped == q.mapped && q'.memory == q.memory
  {
    hide UnmapAll, Conserved;
    ApplyKeepsSound(q, os, UnmapFrom(from));
    if q.memory != UserPtr {
      UnmapAllMapped(q, os, Rows(from, q.mappings, q.planes));
      UnmapAllClears(q, os, Rows(from, q.mappings, q.planes));
    }
  }

  lemma {:induction false} UnmapAllMapped(q: Queue, os: Os, todo: seq<Cell>)
    requires Fits(q, todo)
    ensures UnmapAll(q, os, todo).0.mapped == q.mapped
    decreases |todo|
  {
    if todo != [] {
      var (q1, ok) := UnmapOne(q, os, todo[0]);
      if ok {
        UnmapAllMapped(q1, os, todo[1..]);
      }
    }
  }

  /**
   * A full release, after any number of failed attempts, leaves nothing live:
   * the mappings ever made and the ones unmapped are the same, each once.
   */
  lemma FullRelease(q: Queue, os: Os, attempts: nat)
    requires Loose(q) && Conserved(q) && q.memory != UserPtr
    requires MunmapBufs(Retry(q, os, attempts), os, 0).1
    ensures var q' := MunmapBufs(Retry(q, os, attempts), os, 0).0;
            q'.live == map[] && q'.cells == map[] && q'.mappings == 0 && multiset(q'.unmapped) == multiset(q.mapped)
  {
    hide Retry, UnmapAll, Conserved;
    RetryKeepsLoose(q, os, attempts);
    var r := Retry(q, os, attempts);
    ReleaseKeepsLoose(r, os, 0);
    ReleaseConserves(r, os, 0);
    UnmapAllClears(r, os, Rows(0, r.mappings, r.planes));
    var q' := MunmapBufs(r, os, 0).0;
    assert q'.cells == map[];
    assert q'.live == map[];
    NothingLive(q');
  }

  lemma NothingLive(q: Queue)
    requires Conserved(q) && q.live == map[]
    ensures multiset(q.unmapped) == multiset(q.mapped)
  {
    assert Items(q.live) == {};
  }

  /**
   * A failed mapping call leaves the count as it was, so what it did map can
   * no longer be reached: the queue stays exact exactly when the very first
   * mmap was the one that failed.
   */
  lemma FailedMapLeaksIff(q: Queue, os: Os)
    requires Tight(q) && Conserved(q) && q.memory != UserPtr
    requires !MmapBufs(q, os, q.mappings).1
    ensures Tight(MmapBufs(q, os, q.mappings).0) <==> !Granted(q, os)
  {
    hide Conserved;
    var todo := Rows(q.mappings, q.buffers, q.planes);
    assert todo != [] && todo[0] in todo;
    var (q1, ok) := MapOne(q, os, todo[0]);
    if Granted(q, os) {
      assert todo[0] in q1.cells;
      MapAllFills(q1, os, todo[1..]);
      var q' := MmapBufs(q, os, q.mappings).0;
      assert todo[0] in q'.cells && todo[0].0 >= q'.mappings;
    }
  }

  /**
   * A mapping call leaves the queue exact whatever the kernel does, exactly if
   * it has at most one plane to map.
   */
  lemma MapNeverLeaksIff(q: Queue)
    requires Tight(q) && Conserved(q) && q.memory != UserPtr
    ensures (forall os: Os :: Tight(MmapBufs(q, os, q.mappings).0)) <==> |Rows(q.mappings, q.buffers, q.planes)| <= 1
  {
    hide Tight, Conserved;
    TightIsSound(q);
    SoundIsSane(q);
    var todo := Rows(q.mappings, q.buffers, q.planes);
    if |todo| <= 1 {
      forall os: Os
        ensures Tight(MmapBufs(q, os, q.mappings).0)
      {
        AtMostOne(q, os, todo);
        if MmapBufs(q, os, q.mappings).1 {
          MapKeepsTight(q, os);
        } else {
          FailedMapLeaksIff(q, os);
        }
      }
    } else {
      var a := Unused(q.live.Keys);
      var os: Os := (n: nat) => if n == q.calls then Grant(a) else Refuse;
      SecondFails(q, os, todo);
      FailedMapLeaksIff(q, os);
      assert !Tight(MmapBufs(q, os, q.mappings).0);
    }
  }

  lemma AtMostOne(q: Queue, os: Os, todo: seq<Cell>)
    requires Fits(q, todo) && |todo| <= 1
    ensures !MapAll(q, os, todo).1 ==> !Granted(q, os)
  {
    if todo != [] {
      var q1 := MapOne(q, os, todo[0]).0;
      assert MapAll(q1, os, todo[1..]) == (q1, true);
    }
  }

  lemma SecondFails(q: Queue, os: Os, todo: seq<Cell>)
    requires Fits(q, todo) && |todo| >= 2 && Granted(q, os) && os(q.calls + 1).Refuse?
    ensures !MapAll(q, os, todo).1
  {
    var q1 := MapOne(q, os, todo[0]).0;
    assert MapAll(q, os, todo) == MapAll(q1, os, todo[1..]);
    assert !MapOne(q1, os, todo[1..][0]).1;
  }

  /** An address that is neither NULL nor in use. */
  lemma {:induction false} Unused(used: set<nat>) returns (a: nat)
    ensures a > 0 && forall x :: x in used ==> x < a
    decreases used
  {
    if used == {} {
      a := 1;
    } else {
      var x :| x in used;
      var b := Unused(used - {x});
      a := if x < b then b else x + 1;
      assert forall y :: y in used ==> y == x || y in used - {x};
    }
  }

  // Intended use in which releases fail and are retried in between.

  /** An intended call; a mapping call succeeds or fails at its first plane, a release may fail anywhere. */
  predicate Careful(q: Queue, os: Os, op: Op)
    requires Sane(q)
  {
    Intended(q, op) && (op.MapFrom? ==> MmapBufs(q, os, op.from).1 || !Granted(q, os))
  }

  predicate AllCareful(q: Queue, os: Os, ops: seq<Op>)
    requires Sane(q)
    decreases |ops|
  {
    ops == [] || (Careful(q, os, ops[0]) && AllCareful(Apply(q, os, ops[0]).0, os, ops[1..]))
  }

  lemma MapKeepsLoose(q: Queue, os: Os)
    requires Loose(q) && Conserved(q) && (MmapBufs(q, os, q.mappings).1 || !Granted(q, os))
    ensures Loose(MmapBufs(q, os, q.mappings).0)
  {
    hide Conserved, MapAll, Sound, NoStray;
    SoundIsSane(q);
    if q.memory != UserPtr {
      var todo := Rows(q.mappings, q.buffers, q.planes);
      LooseRowsAreFree(q);
      LooseNoStray(q);
      MapAllFills(q, os, todo);
      MapAllNoStray(q, os, todo);
      MapAllKeeps(q, os, todo);
      FailsEmpty(q, os, todo);
      var q1 := MapAll(q, os, todo).0;
      SoundAtAnyCount(q1, Max(q.mappings, q.buffers));
      NoStrayIs(q1);
    }
  }

  lemma LooseRowsAreFree(q: Queue)
    requires Loose(q)
    ensures Disjoint(q, Rows(q.mappings, q.buffers, q.planes))
  {
    var todo := Rows(q.mappings, q.buffers, q.planes);
    RowsDistinct(q.mappings, q.buffers, q.planes);
    forall i | 0 <= i < |todo|
      ensures todo[i] !in q.cells
    {
      assert todo[i] in todo;
    }
  }

  lemma FailsEmpty(q: Queue, os: Os, todo: seq<Cell>)
    requires Fits(q, todo)
    ensures !MapAll(q, os, todo).1 && !Granted(q, os) ==> MapAll(q, os, todo).0.cells == q.cells
  {
  }

  lemma ApplyKeepsLoose(q: Queue, os: Os, op: Op)
    requires Loose(q) && Conserved(q) && Careful(q, os, op)
    ensures Loose(Apply(q, os, op).0)
  {
    hide Loose, Conserved, MmapBufs, MunmapBufs;
    match op {
      case MapFrom(from) => MapKeepsLoose(q, os);
      case UnmapFrom(from) => ReleaseKeepsLoose(q, os, from);
      case _ => RequestKeepsLoose(q, os, op);
    }
  }

  lemma RequestKeepsLoose(q: Queue, os: Os, op: Op)
    requires Loose(q) && (op.Request? || op.Create?) && Intended(q, op)
    ensures Loose(Apply(q, os, op).0)
  {
  }

  lemma {:induction false} RunKeepsLoose(q: Queue, os: Os, ops: seq<Op>)
    requires Loose(q) && Conserved(q) && AllCareful(q, os, ops)
    ensures AllAllowed(q, os, ops)
    ensures var q' := Run(q, os, ops); Loose(q') && Conserved(q') && q'.memory == q.memory
    decreases |ops|
  {
    hide Apply, Loose, Sound, Conserved, Allowed;
    if ops != [] {
      LooseIsSound(q);
      AllowedIfIntended(q, ops[0]);
      ApplyKeepsLoose(q, os, ops[0]);
      ApplyKeepsSound(q, os, ops[0]);
      ApplyKeepsMemory(q, os, ops[0]);
      RunKeepsLoose(Apply(q, os, ops[0]).0, os, ops[1..]);
    }
  }

  lemma ApplyKeepsMemory(q: Queue, os: Os, op: Op)
    requires Sane(q) && Allowed(q, op)
    ensures Apply(q, os, op).0.memory == q.memory
  {
    hide MapAll, UnmapAll;
    match op {
      case MapFrom(from) => MapAllFills(q, os, Rows(from, q.buffers, q.planes));
      case UnmapFrom(from) => UnmapAllClears(q, os, Rows(from, q.mappings, q.planes));
      case _ =>
    }
  }

  /**
   * After any run of careful calls, failed releases included, a full release
   * that succeeds in the end leaves nothing mapped, and everything ever mapped
   * was unmapped exactly once under its own length.
   */
  lemma CarefulRunsReleaseAll(memory: Memory, os: Os, ops: seq<Op>, attempts: nat)
    requires memory != UserPtr && AllCareful(Init(memory), os, ops)
    ensures AllAllowed(Init(memory), os, ops)
    ensures var q := Run(Init(memory), os, ops);
            var r := MunmapBufs(Retry(q, os, attempts), os, 0);
            r.1 ==> r.0.live == map[] && r.0.cells == map[] && multiset(r.0.unmapped) == multiset(q.mapped)
  {
    hide Run, AllCareful, AllAllowed, Retry, MunmapBufs;
    var q0 := Init(memory);
    assert Items(q0.live) == {};
    RunKeepsLoose(q0, os, ops);
    var q := Run(q0, os, ops);
    if MunmapBufs(Retry(q, os, attempts), os, 0).1 {
      FullRelease(q, os, attempts);
    }
  }

  // Which address the getter returns.

  /** The k-th cell has the address granted by the k-th mmap from the given one on. */
  predicate GotAt(os: Os, first: nat, todo: seq<Cell>, cells: map<Cell, nat>, k: nat)
    requires k < |todo|
  {
    os(first + k).Grant? && todo[k] in cells && cells[todo[k]] == os(first + k).addr
  }

  predicate GotAddresses(os: Os, first: nat, todo: seq<Cell>, cells: map<Cell, nat>) {
    forall k :: 0 <= k < |todo| ==> GotAt(os, first, todo, cells, k)
  }

  lemma FirstGot(os: Os, first: nat, todo: seq<Cell>, cells: map<Cell, nat>)
    requires todo != [] && GotAddresses(os, first + 1, todo[1..], cells)
    requires os(first).Grant? && todo[0] in cells && cells[todo[0]] == os(first).addr
    ensures GotAddresses(os, first, todo, cells)
  {
    forall k | 0 <= k < |todo|
      ensures GotAt(os, first, todo, cells, k)
    {
      if k > 0 {
        assert GotAt(os, first + 1, todo[1..], cells, k - 1);
        assert first + 1 + (k - 1) == first + k;
      }
    }
  }

  /** A mapping call that succeeds makes one mmap per cell, in order, and each cell gets the address of its own. */
  lemma {:induction false} MapAllGrants(q: Queue, os: Os, todo: seq<Cell>)
    requires Fits(q, todo) && Distinct(todo) && MapAll(q, os, todo).1
    ensures GotAddresses(os, q.calls, todo, MapAll(q, os, todo).0.cells)
    ensures var q' := MapAll(q, os, todo).0;
            forall c :: c in q.cells && c !in todo ==> c in q'.cells && q'.cells[c] == q.cells[c]
    decreases |todo|
  {
    hide GotAddresses;
    if todo != [] {
      var q1, rest := MapOne(q, os, todo[0]).0, todo[1..];
      assert todo[0] !in rest && todo == [todo[0]] + rest;
      MapAllGrants(q1, os, rest);
      FirstGot(os, q.calls, todo, MapAll(q1, os, rest).0.cells);
    } else {
      NothingGot(os, q.calls, q.cells);
    }
  }

  lemma NothingGot(os: Os, first: nat, cells: map<Cell, nat>)
    ensures GotAddresses(os, first, [], cells)
  {
  }

  /**
   * After a successful intended mapping call the getter returns, for every
   * buffer and plane it mapped, the address that its mmap granted, and for the
   * ones mapped before what it returned before.
   */
  lemma GetterReturnsGranted(q: Queue, os: Os)
    requires Tight(q) && q.memory != UserPtr && MmapBufs(q, os, q.mappings).1
    ensures var q' := MmapBufs(q, os, q.mappings).0;
            var todo := Rows(q.mappings, q.buffers, q.planes);
            && (forall k :: 0 <= k < |todo| ==> GetterHas(q', todo[k], os(q.calls + k)))
            && (forall b: nat, p: nat :: b < q.mappings ==> GMmapping(q', b, p) == GMmapping(q, b, p))
  {
    hide MapAll, Sound, GotAddresses, GetterHas, GotAt;
    SoundIsSane(q);
    var todo := Rows(q.mappings, q.buffers, q.planes);
    RowsAreFree(q);
    MapAllGrants(q, os, todo);
    MapAllFills(q, os, todo);
    var q' := MmapBufs(q, os, q.mappings).0;
    forall k | 0 <= k < |todo|
      ensures GetterHas(q', todo[k], os(q.calls + k))
    {
      GotIsReturned(os, q.calls, todo, q', k);
    }
    forall b: nat, p: nat | b < q.mappings
      ensures GMmapping(q', b, p) == GMmapping(q, b, p)
    {
      OldIsReturned(q, q', todo, (b, p));
    }
  }

  /** The getter returns what this answer of the kernel granted. */
  predicate GetterHas(q: Queue, c: Cell, x: Choice) { x.Grant? && GMmapping(q, c.0, c.1) == x.addr }

  lemma GotIsReturned(os: Os, first: nat, todo: seq<Cell>, q: Queue, k: nat)
    requires GotAddresses(os, first, todo, q.cells) && k < |todo|
    requires forall c :: c in todo ==> c.0 < q.mappings && c.1 < q.planes
    ensures GetterHas(q, todo[k], os(first + k))
  {
    assert GotAt(os, first, todo, q.cells, k) && todo[k] in todo && (todo[k].0, todo[k].1) == todo[k];
  }

  lemma OldIsReturned(q: Queue, q': Queue, todo: seq<Cell>, c: Cell)
    requires c.0 < q.mappings <= q'.mappings && q'.planes == q.planes
    requires c.1 < q.planes ==> c in q.cells && c !in todo
    requires forall x :: x in q.cells && x !in todo ==> x in q'.cells && q'.cells[x] == q.cells[x]
    ensures GMmapping(q', c.0, c.1) == GMmapping(q, c.0, c.1)
  {
    assert (c.0, c.1) == c;
  }

  /** Different buffers and planes have different addresses. */
  lemma AddressesDiffer(q: Queue, b: nat, p: nat, b': nat, p': nat)
    requires Sound(q) && GMmapping(q, b, p) != 0 && GMmapping(q, b, p) == GMmapping(q, b', p')
    ensures b == b' && p == p'
  {
    assert (b, p) in q.cells && (b', p') in q.cells && q.cells[(b, p)] == q.cells[(b', p')];
  }

  lemma {:induction false} UnmapAllKeepsAddresses(q: Queue, os: Os, todo: seq<Cell>)
    requires Fits(q, todo)
    ensures var q' := UnmapAll(q, os, todo).0; forall c :: c in q'.cells ==> c in q.cells && q'.cells[c] == q.cells[c]
    decreases |todo|
  {
    if todo != [] {
      var (q1, ok) := UnmapOne(q, os, todo[0]);
      if ok {
        UnmapAllKeepsAddresses(q1, os, todo[1..]);
      }
    }
  }

  /** A release, successful or not, changes the address of no buffer and plane that stays mapped. */
  lemma ReleaseKeepsAddresses(q: Queue, os: Os, from: nat, b: nat, p: nat)
    requires Sound(q) && from <= q.mappings
    ensures var q' := MunmapBufs(q, os, from).0; GMmapping(q', b, p) != 0 ==> GMmapping(q', b, p) == GMmapping(q, b, p)
  {
    hide UnmapAll, Sound;
    SoundIsSane(q);
    if q.memory != UserPtr {
      var todo := Rows(from, q.mappings, q.planes);
      UnmapAllKeepsAddresses(q, os, todo);
      UnmapAllClears(q, os, todo);
    }
  }

  /** What the calls do to the counts, and asking for buffers to the layout. */
  lemma CountsFollow(q: Queue, os: Os, op: Op)
    requires Sane(q) && Allowed(q, op)
    ensures var (q', ok) := Apply(q, os, op);
            match op
            case Request(n, answers) => q'.buffers == n && q'.mappings == q.mappings
                && LayoutSet(q, q', n > 0, answers(0))
            case Create(n, answers) =>
              q'.buffers == q.buffers + n && q'.mappings == q.mappings
              && LayoutSet(q, q', q.buffers == 0 && n > 0, answers(0))
            case MapFrom(from) =>
              q'.buffers == q.buffers && LayoutSet(q, q', false, NoAnswer)
              && (ok && q.memory != UserPtr && from <= q.buffers ==> q'.mappings == q.buffers)
              && (!ok ==> q'.mappings == q.mappings)
            case UnmapFrom(from) =>
              q'.buffers == q.buffers && LayoutSet(q, q', false, NoAnswer)
              && (ok && q.memory != UserPtr ==> q'.mappings == from) && (!ok ==> q'.mappings == q.mappings)
  {
    hide MapAll, UnmapAll;
    match op {
      case MapFrom(from) => MapAllFills(q, os, Rows(from, q.buffers, q.planes));
      case UnmapFrom(from) => UnmapAllClears(q, os, Rows(from, q.mappings, q.planes));
      case _ =>
    }
  }

  /** The planes and the lengths of those planes are the answered ones if `asked`, and else the old ones. */
  predicate LayoutSet(q: Queue, q': Queue, asked: bool, first: Queried) {
    if asked && first.Answered? then
      q'.planes == first.layout.planes
      && forall p :: 0 <= p < q'.planes && p < |q'.lengths| && p < |first.layout.lengths| ==>
           q'.lengths[p] == first.layout.lengths[p]
    else q'.planes == q.planes && q'.lengths == q.lengths
  }

  // What goes wrong, in runs from a new queue.

  function OneLength(length: nat): seq<nat> { [length] + seq(MAX_PLANES - 1, _ => 0) }

  function Frames(length: nat): nat -> Queried { (b: nat) => Answered(Layout(1, seq(MAX_PLANES, _ => length))) }

  /** Two buffers of which the second cannot be mapped: after a full release the first is still mapped, out of reach. */
  lemma LeakExample(os: Os)
    requires os(0) == Grant(1) && os(1) == Refuse
    ensures var ops := [Request(2, Frames(4096)), MapFrom(0), UnmapFrom(0)];
            AllAllowed(Init(Mmap), os, ops)
            && Run(Init(Mmap), os, ops).live == map[1 := 4096] && Run(Init(Mmap), os, ops).mappings == 0
  {
    hide MmapBufs, MunmapBufs, QueryBufs;
    TwoAreGranted();
    FirstIsMapped(os);
    NothingToRelease(os);
    RunOfThree(Init(Mmap), os, Request(2, Frames(4096)), MapFrom(0), UnmapFrom(0));
  }

  /** Two buffers of one plane, not mapped yet. */
  function TwoBuffers(): Queue { Init(Mmap).(buffers := 2, planes := 1, lengths := OneLength(4096)) }

  /** The first buffer mapped at address 1, the second not, the count still 0. */
  function HalfMapped(): Queue {
    TwoBuffers().(cells := map[(0, 0) := 1], live := map[1 := 4096], calls := 2, mapped := [(1, 4096)])
  }

  lemma TwoAreGranted()
    ensures QueryBufs(Init(Mmap).(buffers := 2), 0, Frames(4096)).0 == TwoBuffers()
  {
  }

  lemma FirstIsMapped(os: Os)
    requires os(0) == Grant(1) && os(1) == Refuse
    ensures MmapBufs(TwoBuffers(), os, 0).0 == HalfMapped()
  {
    var q := TwoBuffers();
    assert Rows(0, 2, 1) == [(0, 0), (1, 0)];
    var q1 := MapOne(q, os, (0, 0)).0;
    assert MapAll(q, os, [(0, 0), (1, 0)]) == MapAll(q1, os, [(0, 0), (1, 0)][1..]);
    assert [(0, 0), (1, 0)][1..] == [(1, 0)];
    assert MapAll(q1, os, [(1, 0)]).0 == MapOne(q1, os, (1, 0)).0;
  }

  lemma NothingToRelease(os: Os)
    ensures MunmapBufs(HalfMapped(), os, 0).0 == HalfMapped()
  {
    assert Rows(0, 0, 1) == [];
  }

  lemma RunOfThree(q: Queue, os: Os, x: Op, y: Op, z: Op)
    requires Sane(q) && Allowed(q, x) && Allowed(Apply(q, os, x).0, y) && Allowed(Apply(Apply(q, os, x).0, os, y).0, z)
    ensures AllAllowed(q, os, [x, y, z])
    ensures Run(q, os, [x, y, z]) == Apply(Apply(Apply(q, os, x).0, os, y).0, os, z).0
  {
    hide Apply, Allowed;
    var q1 := Apply(q, os, x).0;
    var q2 := Apply(q1, os, y).0;
    RunOfOne(q2, os, z, []);
    RunOfOne(q1, os, y, [z]);
    RunOfOne(q, os, x, [y, z]);
    assert [y, z] == [y] + [z] && [x, y, z] == [x] + [y, z];
  }

  lemma RunOfOne(q: Queue, os: Os, x: Op, rest: seq<Op>)
    requires Sane(q) && Allowed(q, x) && AllAllowed(Apply(q, os, x).0, os, rest)
    ensures AllAllowed(q, os, [x] + rest) && Run(q, os, [x] + rest) == Run(Apply(q, os, x).0, os, rest)
  {
    hide Apply, Allowed;
    assert ([x] + rest)[1..] == rest;
  }

  /** Asking again with longer planes while a buffer is mapped: the release then unmaps what was never mapped. */
  lemma WrongLengthExample(os: Os)
    requires os(0) == Grant(1) && os(1).Grant?
    ensures var ops := [Request(1, Frames(4096)), MapFrom(0)];
            AllAllowed(Init(Mmap), os, ops) && Run(Init(Mmap), os, ops) == OneMapped()
    ensures var again := QueryBufs(OneMapped(), 0, Frames(8192)).0;
            !Sound(again) && Sane(again)
            && var q := MunmapBufs(again, os, 0).0; q.mapped == [(1, 4096)] && q.unmapped == [(1, 8192)]
  {
    MapsOne(os);
    ReleasesWrongly(os);
    hide Apply;
    var q1 := Apply(Init(Mmap), os, Request(1, Frames(4096))).0;
    RunOfOne(q1, os, MapFrom(0), []);
    RunOfOne(Init(Mmap), os, Request(1, Frames(4096)), [MapFrom(0)]);
    assert [Request(1, Frames(4096)), MapFrom(0)] == [Request(1, Frames(4096))] + [MapFrom(0)];
    assert [MapFrom(0)] == [MapFrom(0)] + [];
  }

  /** One buffer of one plane, mapped at address 1. */
  function OneMapped(): Queue {
    Queue(Mmap, 1, 1, 1, OneLength(4096), map[(0, 0) := 1], map[1 := 4096], 1, [(1, 4096)], [])
  }

  lemma MapsOne(os: Os)
    requires os(0) == Grant(1)
    ensures Apply(Apply(Init(Mmap), os, Request(1, Frames(4096))).0, os, MapFrom(0)).0 == OneMapped()
  {
    var q1 := Apply(Init(Mmap), os, Request(1, Frames(4096))).0;
    assert q1 == Init(Mmap).(buffers := 1, planes := 1, lengths := OneLength(4096));
    assert Rows(0, 1, 1) == [(0, 0)];
    OneCell(q1, os);
  }

  lemma ReleasesWrongly(os: Os)
    requires os(1).Grant?
    ensures var again := QueryBufs(OneMapped(), 0, Frames(8192)).0;
            !Sound(again) && Sane(again)
            && var q := MunmapBufs(again, os, 0).0; q.mapped == [(1, 4096)] && q.unmapped == [(1, 8192)]
  {
    var again := QueryBufs(OneMapped(), 0, Frames(8192)).0;
    assert Rows(0, 1, 1) == [(0, 0)];
    OneCell(again, os);
    assert again.cells[(0, 0)] == 1 && again.live[1] == 4096;
  }

  lemma OneCell(q: Queue, os: Os)
    requires Fits(q, [(0, 0)])
    ensures MapAll(q, os, [(0, 0)]) == MapOne(q, os, (0, 0)) && UnmapAll(q, os, [(0, 0)]) == UnmapOne(q, os, (0, 0))
  {
    assert [(0, 0)][1..] == [];
  }
}
