/** The queue with its table of mappings updated in place by the two loops. */
module V4lBuffers {
  import opened V4lQueue

  class BufferQueue {
    const os: Os
    const memory: Memory
    var buffers: nat
    var mappings: nat
    var planes: nat
    var lengths: seq<nat>
    /** NULL is 0. */
    const mmappings: array2<nat>
    // The kernel's side.
    var live: map<nat, nat>
    var calls: nat
    var mapped: seq<(nat, nat)>
    var unmapped: seq<(nat, nat)>
    /** The non-NULL entries of the table. */
    ghost var cells: map<Cell, nat>

    ghost predicate Valid()
      reads this, mmappings
    {
      mmappings.Length0 == MAX_FRAME && mmappings.Length1 == MAX_PLANES
      && buffers <= MAX_FRAME && mappings <= MAX_FRAME && planes <= MAX_PLANES && |lengths| == MAX_PLANES
      && (forall b, p :: 0 <= b < MAX_FRAME && 0 <= p < MAX_PLANES ==>
            mmappings[b, p] == if (b, p) in cells then cells[(b, p)] else 0)
      && (forall c :: c in cells ==> cells[c] != 0)
    }

    ghost function View(): Queue
      reads this
    {
      Queue(memory, buffers, mappings, planes, lengths, cells, live, calls, mapped, unmapped)
    }

    /** v4l_queue_init. */
    constructor (memory: Memory, os: Os)
      ensures Valid() && fresh(mmappings) && View() == Init(memory) && this.os == os
    {
      this.os, this.memory := os, memory;
      buffers, mappings, planes := 0, 0, 0;
      lengths := seq(MAX_PLANES, _ => 0);
      mmappings := new nat[MAX_FRAME, MAX_PLANES]((_, _) => 0);
      live, calls, mapped, unmapped := map[], 0, [], [];
      cells := map[];
    }

    /** v4l_queue_reqbufs, once VIDIOC_REQBUFS has granted `count` buffers. */
    method ReqBufs(count: nat, answers: nat -> Queried) returns (ok: bool)
      requires Valid() && Allowed(View(), Request(count, answers))
      modifies this
      ensures Valid() && (View(), ok) == Apply(old(View()), os, Request(count, answers))
    {
      buffers := count;
      ok := QueryBufs(0, answers);
    }

    /** v4l_queue_create_bufs, once VIDIOC_CREATE_BUFS has granted `count` more. */
    method CreateBufs(count: nat, answers: nat -> Queried) returns (ok: bool)
      requires Valid() && Allowed(View(), Create(count, answers))
      modifies this
      ensures Valid() && (View(), ok) == Apply(old(View()), os, Create(count, answers))
    {
      buffers := buffers + count;
      ok := QueryBufs(buffers - count, answers);
    }

    /** v4l_queue_querybufs; buffer 0 brings the planes and their lengths. */
    method QueryBufs(from: nat, answers: nat -> Queried) returns (ok: bool)
      requires Valid() && SaneLayout(answers(0))
      modifies this`planes, this`lengths
      ensures Valid() && (View(), ok) == V4lQueue.QueryBufs(old(View()), from, answers)
    {
      var b := from;
      while b < buffers
        invariant Valid() && from <= b && (b <= buffers || b == from)
        invariant forall k :: from <= k < b ==> answers(k).Answered?
        invariant View() == if b == from then old(View()) else V4lQueue.QueryBufs(old(View()), from, answers).0
      {
        var answer := answers(b);
        if answer.NoAnswer? {
          return false;
        }
        if b == 0 {
          SetLayout(answer.layout);
        }
        b := b + 1;
      }
      ok := true;
    }

    method SetLayout(x: Layout)
      requires Valid() && SaneLayout(Answered(x))
      modifies this`planes, this`lengths
      ensures Valid() && View() == old(View()).(planes := x.planes, lengths := Relaid(old(lengths), x))
    {
      hide Relaid;
      planes := x.planes;
      CopyLengths(x);
    }

    /** The lengths of the planes, one by one. */
    method CopyLengths(x: Layout)
      requires |lengths| == |x.lengths| == MAX_PLANES && x.planes <= MAX_PLANES
      modifies this`lengths
      ensures |lengths| == MAX_PLANES && lengths == Relaid(old(lengths), x)
    {
      ghost var was := lengths;
      var p := 0;
      while p < x.planes
        invariant p <= x.planes && lengths == x.lengths[..p] + was[p..]
      {
        Overwritten(was, x.lengths, p);
        lengths := lengths[p := x.lengths[p]];
        p := p + 1;
      }
    }

    /** v4l_queue_g_mmapping. */
    method GetMmapping(index: nat, plane: nat) returns (m: nat)
      requires Valid()
      ensures m == GMmapping(View(), index, plane)
    {
      if index >= mappings || plane >= planes {
        return 0;
      }
      m := mmappings[index, plane];
    }

    /** mmap of one plane; 0 stands for MAP_FAILED. */
    method MapPlane(b: nat, p: nat) returns (ok: bool)
      requires Valid() && b < MAX_FRAME && p < MAX_PLANES
      modifies this, mmappings
      ensures Valid() && (View(), ok) == MapOne(old(View()), os, (b, p))
    {
      var choice := os(calls);
      calls := calls + 1;
      if choice.Refuse? || choice.addr == 0 || choice.addr in live {
        return false;
      }
      live := live[choice.addr := lengths[p]];
      mapped := mapped + [(choice.addr, lengths[p])];
      mmappings[b, p] := choice.addr;
      cells := cells[(b, p) := choice.addr];
      ok := true;
    }

    /** One turn of the release loop: a NULL entry is skipped. */
    method UnmapPlane(b: nat, p: nat) returns (ok: bool)
      requires Valid() && b < mappings && p < planes
      modifies this, mmappings
      ensures Valid() && (View(), ok) == UnmapOne(old(View()), os, (b, p))
    {
      var m := GetMmapping(b, p);
      if m == 0 {
        return true;
      }
      var choice := os(calls);
      calls := calls + 1;
      if choice.Refuse? {
        return false;
      }
      live := live - {m};
      unmapped := unmapped + [(m, lengths[p])];
      mmappings[b, p] := 0;
      cells := cells - {(b, p)};
      ok := true;
    }

    /** v4l_queue_mmap_bufs. */
    method MmapBufs(from: nat) returns (ok: bool)
      requires Valid() && from <= MAX_FRAME
      modifies this, mmappings
      ensures Valid() && (View(), ok) == V4lQueue.MmapBufs(old(View()), os, from)
    {
      hide MapOne, MapAll;
      if memory == UserPtr {
        return true;
      }
      ghost var q0 := View();
      var b := from;
      while b < buffers
        invariant Valid() && from <= b <= Max(from, buffers)
        invariant SameShape(q0, View())
        invariant MapAll(View(), os, Rows(b, buffers, planes)) == MapAll(q0, os, Rows(from, q0.buffers, q0.planes))
        decreases buffers - b
      {
        ok := MapRow(b);
        if !ok {
          return;
        }
        b := b + 1;
      }
      NothingToMap(View(), os, Rows(b, buffers, planes));
      SetMappings(b);
      ok := true;
    }

    method SetMappings(n: nat)
      requires Valid() && n <= MAX_FRAME
      modifies this`mappings
      ensures Valid() && View() == old(View()).(mappings := n)
    {
      mappings := n;
    }

    /** The inner loop of v4l_queue_mmap_bufs. */
    method MapRow(b: nat) returns (ok: bool)
      requires Valid() && b < buffers
      modifies this, mmappings
      ensures Valid() && SameShape(old(View()), View())
      ensures var all := MapAll(old(View()), os, Rows(b, old(buffers), old(planes)));
              if ok then MapAll(View(), os, Rows(b + 1, buffers, planes)) == all
              else all == (View(), false)
    {
      hide MapOne, MapAll;
      ghost var q0 := View();
      ghost var rest := Rows(b + 1, buffers, planes);
      assert Row(b, planes)[0..] + rest == Rows(b, buffers, planes);
      var p := 0;
      while p < planes
        invariant Valid() && p <= planes && SameShape(q0, View())
        invariant MapAll(View(), os, Row(b, planes)[p..] + rest) == MapAll(q0, os, Rows(b, buffers, planes))
      {
        ghost var q, todo := View(), Row(b, planes)[p..] + rest;
        assert todo[0] == (b, p) && todo[1..] == Row(b, planes)[p + 1..] + rest;
        MapStep(q, os, todo);
        MapOneShape(q, os, (b, p));
        ok := MapPlane(b, p);
        if !ok {
          return;
        }
        p := p + 1;
      }
      assert Row(b, planes)[p..] + rest == rest;
      ok := true;
    }

    /** v4l_queue_munmap_bufs. */
    method MunmapBufs(from: nat) returns (ok: bool)
      requires Valid() && from <= MAX_FRAME
      modifies this, mmappings
      ensures Valid() && (View(), ok) == V4lQueue.MunmapBufs(old(View()), os, from)
    {
      hide UnmapOne, UnmapAll;
      if memory == UserPtr {
        return true;
      }
      ghost var q0 := View();
      var b := from;
      while b < mappings
        invariant Valid() && from <= b <= Max(from, mappings)
        invariant SameShape(q0, View())
        invariant UnmapAll(View(), os, Rows(b, mappings, planes)) ==
                  UnmapAll(q0, os, Rows(from, q0.mappings, q0.planes))
        decreases mappings - b
      {
        ok := UnmapRow(b);
        if !ok {
          return;
        }
        b := b + 1;
      }
      NothingToUnmap(View(), os, Rows(b, mappings, planes));
      SetMappings(from);
      ok := true;
    }

    /** The inner loop of v4l_queue_munmap_bufs. */
    method UnmapRow(b: nat) returns (ok: bool)
      requires Valid() && b < mappings
      modifies this, mmappings
      ensures Valid() && SameShape(old(View()), View())
      ensures var all := UnmapAll(old(View()), os, Rows(b, old(mappings), old(planes)));
              if ok then UnmapAll(View(), os, Rows(b + 1, mappings, planes)) == all
              else all == (View(), false)
    {
      hide UnmapOne, UnmapAll;
      ghost var q0 := View();
      ghost var rest := Rows(b + 1, mappings, planes);
      assert Row(b, planes)[0..] + rest == Rows(b, mappings, planes);
      var p := 0;
      while p < planes
        invariant Valid() && p <= planes && SameShape(q0, View())
        invariant UnmapAll(View(), os, Row(b, planes)[p..] + rest) == UnmapAll(q0, os, Rows(b, mappings, planes))
      {
        ghost var q, todo := View(), Row(b, planes)[p..] + rest;
        assert todo[0] == (b, p) && todo[1..] == Row(b, planes)[p + 1..] + rest;
        UnmapStep(q, os, todo);
        UnmapOneShape(q, os, (b, p));
        ok := UnmapPlane(b, p);
        if !ok {
          return;
        }
        p := p + 1;
      }
      assert Row(b, planes)[p..] + rest == rest;
      ok := true;
    }
  }

  predicate SameShape(q: Queue, r: Queue) {
    r.memory == q.memory && r.buffers == q.buffers && r.mappings == q.mappings && r.planes == q.planes
    && r.lengths == q.lengths
    && Sane(q)
  }

  lemma Overwritten(was: seq<nat>, xs: seq<nat>, p: nat)
    requires p < |was| == |xs|
    ensures (xs[..p] + was[p..])[p := xs[p]] == xs[..p + 1] + was[p + 1..]
  {
  }

  lemma MapStep(q: Queue, os: Os, todo: seq<Cell>)
    requires todo != [] && Fits(q, todo)
    ensures var (q1, ok) := MapOne(q, os, todo[0]);
            Fits(q1, todo[1..]) && MapAll(q, os, todo) == if ok then MapAll(q1, os, todo[1..]) else (q1, false)
  {
    MapOneShape(q, os, todo[0]);
  }

  lemma UnmapStep(q: Queue, os: Os, todo: seq<Cell>)
    requires todo != [] && Fits(q, todo)
    ensures var (q1, ok) := UnmapOne(q, os, todo[0]);
            Fits(q1, todo[1..]) && UnmapAll(q, os, todo) == if ok then UnmapAll(q1, os, todo[1..]) else (q1, false)
  {
    UnmapOneShape(q, os, todo[0]);
  }

  lemma NothingToMap(q: Queue, os: Os, todo: seq<Cell>)
    requires Fits(q, todo) && todo == []
    ensures MapAll(q, os, todo) == (q, true)
  {
  }

  lemma NothingToUnmap(q: Queue, os: Os, todo: seq<Cell>)
    requires Fits(q, todo) && todo == []
    ensures UnmapAll(q, os, todo) == (q, true)
  {
  }
}
