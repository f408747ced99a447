/**
  Control enumeration: v4l_query_ext_ctrl with its fallback for devices that cannot step to the
  next control themselves.
 */
module V4lControls {

  const U32_SIZE := 0x1_0000_0000
  type U32 = x: int | 0 <= x < 0x1_0000_0000

  const CID_BASE: U32 := 0x0098_0900
  const CID_LASTP1: U32 := 0x0098_0900 + 44
  const CID_PRIVATE_BASE: U32 := 0x0800_0000
  const FLAG_NEXT_CTRL: U32 := 0x8000_0000
  const FLAG_NEXT_COMPOUND: U32 := 0x4000_0000

  const EINVAL := 22
  type Errno = e: int | e != 0 witness EINVAL

  /** A device's answer to one query; on success it fills in the id it describes. */
  datatype Answer = Found(id: U32) | Failed(errno: Errno)

  /** The answer to the n-th query may depend on everything before it. */
  type Device = (nat, U32) -> Answer

  datatype Caps = Caps(haveQueryExtCtrl: bool, haveNextCtrl: bool)

  /** The value returned, the id left in the caller's structure, and how many queries were made in all. */
  datatype Outcome = Outcome(ret: int, id: U32, asked: nat)

  function WithFlag(id: U32, flag: U32): (r: U32)
    requires flag == FLAG_NEXT_CTRL || flag == FLAG_NEXT_COMPOUND
    ensures (r / flag) % 2 == 1 && r % flag == id % flag && r / flag / 2 == id / flag / 2
  {
    if (id / flag) % 2 == 1 then id else id + flag
  }

  /** Where a "next" query starts on a device without V4L2_CTRL_FLAG_NEXT_CTRL; the id wraps in 32 bits. */
  function Start(id: U32): U32 {
    if id == 0 then CID_BASE else (id + 1) % U32_SIZE
  }

  function Once(dev: Device, asked: nat, id: U32): Outcome {
    match dev(asked, id)
    case Found(x) => Outcome(0, x, asked + 1)
    case Failed(e) => Outcome(e, id, asked + 1)
  }

  /** The query loop. */
  function Scan(dev: Device, asked: nat, from: U32, next: bool, haveNext: bool): Outcome
    decreases U32_SIZE - from
  {
    var id := if from == CID_LASTP1 && next then CID_PRIVATE_BASE else from;
    var o := Once(dev, asked, id);
    if o.ret != EINVAL || !next || haveNext || id >= CID_PRIVATE_BASE then o
    else Scan(dev, asked + 1, id + 1, next, haveNext)
  }

  /** v4l_query_ext_ctrl; `ext` answers VIDIOC_QUERY_EXT_CTRL and `dev` VIDIOC_QUERYCTRL. */
  function Query(caps: Caps, ext: Device, dev: Device, asked: nat, id: U32, next: bool, compound: bool): Outcome {
    if compound && !caps.haveQueryExtCtrl && !next then Outcome(-EINVAL, id, asked)
    else
      var id1 := if compound && caps.haveQueryExtCtrl then WithFlag(id, FLAG_NEXT_COMPOUND) else id;
      var id2 := if !next then id1 else if caps.haveNextCtrl then WithFlag(id1, FLAG_NEXT_CTRL) else Start(id1);
      if caps.haveQueryExtCtrl then Once(ext, asked, id2)
      else Scan(dev, asked, id2, next, caps.haveNextCtrl)
  }

  /** The function with its loop; it returns whatever the device answers. */
  method QueryExtCtrl(caps: Caps, ext: Device, dev: Device, asked: nat, id0: U32, next: bool, compound0: bool)
      returns (o: Outcome)
    ensures o == Query(caps, ext, dev, asked, id0, next, compound0)
  {
    var id: U32, compound, n := id0, compound0, asked;
    if compound && !caps.haveQueryExtCtrl {
      if !next {
        return Outcome(-EINVAL, id, n);
      }
      compound := false;
    }
    if compound {
      id := WithFlag(id, FLAG_NEXT_COMPOUND);
    }
    if next {
      if caps.haveNextCtrl {
        id := WithFlag(id, FLAG_NEXT_CTRL);
      } else {
        id := if id != 0 then (id + 1) % U32_SIZE else CID_BASE;
      }
    }
    if caps.haveQueryExtCtrl {
      return Once(ext, n, id);
    }
    ghost var first := id;
    while true
      invariant Scan(dev, n, id, next, caps.haveNextCtrl) == Scan(dev, asked, first, next, caps.haveNextCtrl)
      decreases U32_SIZE - id
    {
      if id == CID_LASTP1 && next {
        id := CID_PRIVATE_BASE;
      }
      o := Once(dev, n, id);
      n := n + 1;
      if o.ret == 0 {
        return;
      }
      if o.ret != EINVAL {
        return;
      }
      if !next || caps.haveNextCtrl {
        return;
      }
      if id >= CID_PRIVATE_BASE {
        return;
      }
      id := id + 1;
    }
  }

  // Devices that answer by a fixed set of controls.

  ghost predicate Answers(dev: Device, supported: set<U32>) {
    forall n: nat, id: U32 :: dev(n, id) == if id in supported then Found(id) else Failed(EINVAL)
  }

  /** The ids a fallback scan from s is meant to look at. */
  predicate Visited(s: U32, id: U32) {
    if s <= CID_LASTP1 then s <= id < CID_LASTP1 || id == CID_PRIVATE_BASE
    else if s < CID_PRIVATE_BASE then s <= id <= CID_PRIVATE_BASE
    else id == s
  }

  predicate Least(supported: set<U32>, s: U32, id: U32) {
    id in supported && Visited(s, id) && forall i: U32 :: i in supported && Visited(s, i) ==> id <= i
  }

  /** The last id looked at. */
  function Final(s: U32): U32 {
    if s < CID_PRIVATE_BASE then CID_PRIVATE_BASE else s
  }

  /** The scan finds the least supported id it visits, and fails with EINVAL exactly when there is none. */
  lemma {:induction false} ScanFindsLeast(dev: Device, supported: set<U32>, asked: nat, s: U32)
    requires Answers(dev, supported)
    ensures var o := Scan(dev, asked, s, true, false);
            (o.ret == 0 <==> exists i: U32 :: i in supported && Visited(s, i))
            && (o.ret == 0 ==> Least(supported, s, o.id))
            && (o.ret != 0 ==> o.ret == EINVAL && o.id == Final(s))
    decreases U32_SIZE - s
  {
    var id := if s == CID_LASTP1 then CID_PRIVATE_BASE else s;
    assert dev(asked, id) == if id in supported then Found(id) else Failed(EINVAL);
    if id in supported {
      assert Visited(s, id) && Scan(dev, asked, s, true, false) == Outcome(0, id, asked + 1);
    } else if id >= CID_PRIVATE_BASE {
      assert forall i: U32 :: Visited(s, i) ==> i == id;
    } else {
      ScanFindsLeast(dev, supported, asked + 1, id + 1);
      assert Scan(dev, asked, s, true, false) == Scan(dev, asked + 1, id + 1, true, false);
      assert forall i: U32 :: Visited(s, i) <==> i == id || Visited(id + 1, i);
    }
  }

  /** How many queries a scan can take, whatever the device answers. */
  lemma {:induction false} ScanIsBounded(dev: Device, asked: nat, s: U32, next: bool, haveNext: bool)
    ensures var n := Scan(dev, asked, s, next, haveNext).asked - asked;
            1 <= n <= if !next || haveNext || s >= CID_PRIVATE_BASE then 1
                      else if s <= CID_LASTP1 then CID_LASTP1 - s + 1
                      else CID_PRIVATE_BASE - s + 1
    decreases U32_SIZE - s
  {
    var id := if s == CID_LASTP1 && next then CID_PRIVATE_BASE else s;
    var o := Once(dev, asked, id);
    if o.ret == EINVAL && next && !haveNext && id < CID_PRIVATE_BASE {
      ScanIsBounded(dev, asked + 1, id + 1, next, haveNext);
    }
  }

  const FALLBACK := Caps(false, false)

  /** v4l_query_ext_ctrl asked for the next control, on a device that can only answer for exact ids. */
  lemma NextFindsLeast(ext: Device, dev: Device, supported: set<U32>, asked: nat, id: U32, compound: bool)
    requires Answers(dev, supported)
    ensures var o := Query(FALLBACK, ext, dev, asked, id, true, compound);
            (o.ret == 0 <==> exists i: U32 :: i in supported && Visited(Start(id), i))
            && (o.ret == 0 ==> Least(supported, Start(id), o.id))
            && (o.ret != 0 ==> o.ret == EINVAL && o.id == Final(Start(id)))
  {
    ScanFindsLeast(dev, supported, asked, Start(id));
  }

  /** An exact query (neither flag) is a membership test and leaves the id alone. */
  lemma ExactQuery(ext: Device, dev: Device, supported: set<U32>, asked: nat, id: U32, haveNext: bool)
    requires Answers(dev, supported)
    ensures Query(Caps(false, haveNext), ext, dev, asked, id, false, false) ==
            Outcome(if id in supported then 0 else EINVAL, id, asked + 1)
  {
    assert dev(asked, id) == if id in supported then Found(id) else Failed(EINVAL);
  }

  predicate Standard(id: U32) { CID_BASE <= id < CID_LASTP1 }

  /** x is the first id of the pool after id. */
  predicate FirstAfter(pool: set<U32>, id: U32, x: U32) {
    x in pool && id < x && forall y :: y in pool && id < y ==> x <= y
  }

  /** ids lists the pool's ids after id, each once, in increasing order. */
  ghost predicate Lists(ids: seq<U32>, pool: set<U32>, id: U32) {
    (forall i, j :: 0 <= i < j < |ids| ==> ids[i] < ids[j]) && forall x: U32 :: x in ids <==> x in pool && id < x
  }

  /** The first id of a pool and the list of the later ones make up the list of all. */
  lemma FirstThenRest(pool: set<U32>, id: U32, first: U32, rest: seq<U32>)
    requires FirstAfter(pool, id, first) && Lists(rest, pool, first)
    ensures Lists([first] + rest, pool, id)
  {
    var ids := [first] + rest;
    assert forall i :: 0 <= i < |rest| ==> rest[i] in rest;
    forall x: U32
      ensures x in ids <==> x in pool && id < x
    {
      assert x in ids <==> x == first || x in rest;
    }
  }

  /**
   * The standard ids returned by asking for the next control again and again
   * from `id`; an answer that does not advance ends it.
   */
  function Enumerate(ext: Device, dev: Device, asked: nat, id: U32): seq<U32>
    requires id == 0 || Standard(id)
    decreases if id == 0 then CID_LASTP1 else CID_LASTP1 - id
  {
    var o := Query(FALLBACK, ext, dev, asked, id, true, false);
    if o.ret == 0 && Standard(o.id) && o.id > id then [o.id] + Enumerate(ext, dev, o.asked, o.id) else []
  }

  lemma {:induction false} EnumerateFrom(ext: Device, dev: Device, supported: set<U32>, asked: nat, id: U32)
    requires Answers(dev, supported) && (id == 0 || Standard(id))
    ensures Lists(Enumerate(ext, dev, asked, id), StandardOnes(supported), id)
    decreases if id == 0 then CID_LASTP1 else CID_LASTP1 - id
  {
    hide Query;
    NextFindsLeast(ext, dev, supported, asked, id, false);
    var o := Query(FALLBACK, ext, dev, asked, id, true, false);
    assert Start(id) <= CID_LASTP1 && forall x: U32 :: Standard(x) && id < x ==> Visited(Start(id), x);
    if o.ret == 0 && Standard(o.id) && o.id > id {
      EnumerateFrom(ext, dev, supported, o.asked, o.id);
      FirstThenRest(StandardOnes(supported), id, o.id, Enumerate(ext, dev, o.asked, o.id));
    } else {
      assert Enumerate(ext, dev, asked, id) == [];
    }
  }

  function StandardOnes(supported: set<U32>): set<U32> { set x | x in supported && Standard(x) }

  /** Repeated calls visit each supported standard control once, in increasing order, and miss none. */
  lemma EnumerationIsComplete(ext: Device, dev: Device, supported: set<U32>)
    requires Answers(dev, supported)
    ensures var ids := Enumerate(ext, dev, 0, 0);
            (forall i, j :: 0 <= i < j < |ids| ==> ids[i] < ids[j])
            && forall x: U32 :: x in ids <==> x in supported && Standard(x)
  {
    EnumerateFrom(ext, dev, supported, 0, 0);
  }

  /** After the last standard control the private ones follow one by one, up to the first gap. */
  lemma PrivateIdsFollow(ext: Device, dev: Device, supported: set<U32>, asked: nat, id: U32)
    requires Answers(dev, supported)
    requires Standard(id) && forall x :: x in supported ==> !(id < x < CID_LASTP1)
    ensures Query(FALLBACK, ext, dev, asked, id, true, false).ret == 0 <==> CID_PRIVATE_BASE in supported
    ensures CID_PRIVATE_BASE in supported ==> Query(FALLBACK, ext, dev, asked, id, true, false).id == CID_PRIVATE_BASE
    ensures forall p: U32 :: CID_PRIVATE_BASE <= p < U32_SIZE - 1 ==>
              Query(FALLBACK, ext, dev, asked, p, true, false) ==
              Outcome(if p + 1 in supported then 0 else EINVAL, p + 1, asked + 1)
  {
    NextFindsLeast(ext, dev, supported, asked, id, false);
    if CID_PRIVATE_BASE in supported {
      assert Visited(Start(id), CID_PRIVATE_BASE);
    }
    forall p: U32 | CID_PRIVATE_BASE <= p < U32_SIZE - 1
      ensures Query(FALLBACK, ext, dev, asked, p, true, false) ==
              Outcome(if p + 1 in supported then 0 else EINVAL, p + 1, asked + 1)
    {
      assert Start(p) == p + 1;
      assert dev(asked, p + 1) == if p + 1 in supported then Found(p + 1) else Failed(EINVAL);
    }
  }

  /** A next query that succeeds moves on to a larger id exactly if it does not start from the largest one. */
  lemma NextAdvancesIff(ext: Device, dev: Device, supported: set<U32>, asked: nat, id: U32, compound: bool)
    requires Answers(dev, supported)
    ensures var o := Query(FALLBACK, ext, dev, asked, id, true, compound);
            o.ret == 0 ==> (o.id > id <==> id != U32_SIZE - 1)
  {
    NextFindsLeast(ext, dev, supported, asked, id, compound);
  }

  /** The id after the largest 32-bit one is 0: the enumeration starts over instead of ending. */
  lemma LargestIdWraps(ext: Device, dev: Device, supported: set<U32>, asked: nat)
    requires Answers(dev, supported) && CID_BASE in supported
    ensures var o := Query(FALLBACK, ext, dev, asked, U32_SIZE - 1, true, false);
            o.ret == 0 && o.id <= CID_BASE
  {
    NextFindsLeast(ext, dev, supported, asked, U32_SIZE - 1, false);
    assert Visited(0, CID_BASE);
  }

  // Devices that step to the next control themselves.

  /** Control ids leave the two flag bits free. */
  const ID_LIMIT: U32 := 0x4000_0000

  predicate PlainIds(ids: set<U32>) { forall id :: id in ids ==> id < ID_LIMIT }

  /** The ids that a stepping query is about: ordinary controls, compound ones, or both. */
  function Pool(ordinary: set<U32>, compounds: set<U32>, next: bool, compound: bool): set<U32> {
    (if next then ordinary else {}) + (if compound then compounds else {})
  }

  /** The answer to a stepping query: the first id of the pool after the one asked about. */
  predicate StepsTo(answer: Answer, pool: set<U32>, id: U32) {
    match answer
    case Found(x) => FirstAfter(pool, id, x)
    case Failed(e) => e == EINVAL && forall y :: y in pool ==> y <= id
  }

  /**
    The device reads bit 31 as "next control" and bit 30 as "next compound control", and an id
    without either exactly.
   */
  ghost predicate Honours(dev: Device, ordinary: set<U32>, compounds: set<U32>) {
    forall n: nat, id: U32 :: id < ID_LIMIT ==>
      && dev(n, id) == (if id in ordinary + compounds then Found(id) else Failed(EINVAL))
      && StepsTo(dev(n, id + 0x8000_0000), Pool(ordinary, compounds, true, false), id)
      && StepsTo(dev(n, id + 0x4000_0000), Pool(ordinary, compounds, false, true), id)
      && StepsTo(dev(n, id + 0xc000_0000), Pool(ordinary, compounds, true, true), id)
  }

  /** The device a query goes to. */
  function Asked(caps: Caps, ext: Device, dev: Device): Device { if caps.haveQueryExtCtrl then ext else dev }

  lemma FlagBits(id: U32)
    requires id < ID_LIMIT
    ensures WithFlag(id, FLAG_NEXT_CTRL) == id + 0x8000_0000 && WithFlag(id, FLAG_NEXT_COMPOUND) == id + 0x4000_0000
    ensures WithFlag(WithFlag(id, FLAG_NEXT_COMPOUND), FLAG_NEXT_CTRL) == id + 0xc000_0000
  {
  }

  /** A flagged id is above the standard range, so the loop makes a single query of it. */
  lemma SingleQuery(dev: Device, asked: nat, id: U32, next: bool, haveNext: bool)
    requires !next || (haveNext && id >= CID_PRIVATE_BASE)
    ensures Scan(dev, asked, id, next, haveNext) == Once(dev, asked, id)
  {
  }

  /**
   * On a device that steps, one query is made, of the extended kind if the
   * device has it, and it returns the first control after the given one among
   * those asked for: ordinary ones, compound ones (only the extended query
   * knows them), or both.
   */
  lemma StepFindsFirst(caps: Caps, ext: Device, dev: Device, ordinary: set<U32>, compounds: set<U32>,
                       asked: nat, id: U32, next: bool, compound: bool)
    requires Honours(Asked(caps, ext, dev), ordinary, compounds) && id < ID_LIMIT
    requires caps.haveNextCtrl && (next || (compound && caps.haveQueryExtCtrl))
    ensures var o := Query(caps, ext, dev, asked, id, next, compound);
            var pool := Pool(ordinary, compounds, next, compound && caps.haveQueryExtCtrl);
            && o.asked == asked + 1
            && (o.ret == 0 <==> exists y :: y in pool && id < y)
            && (o.ret == 0 ==> FirstAfter(pool, id, o.id))
            && (o.ret != 0 ==> o.ret == EINVAL)
  {
    hide WithFlag;
    FlagBits(id);
    var q := Asked(caps, ext, dev);
    var flagged := id + (if next then 0x8000_0000 else 0) + if compound && caps.haveQueryExtCtrl then 0x4000_0000
      else 0;
    SingleQuery(dev, asked, flagged, next, caps.haveNextCtrl);
    assert Query(caps, ext, dev, asked, id, next, compound) == Once(q, asked, flagged);
    var pool := Pool(ordinary, compounds, next, compound && caps.haveQueryExtCtrl);
    assert StepsTo(q(asked, flagged), pool, id);
  }

  /** Compound controls alone cannot be asked for without the extended query. */
  lemma CompoundNeedsExtended(caps: Caps, ext: Device, dev: Device, asked: nat, id: U32)
    requires !caps.haveQueryExtCtrl
    ensures Query(caps, ext, dev, asked, id, false, true) == Outcome(-EINVAL, id, asked)
  {
  }

  /** Without either wish the query is exact, on either kind of device. */
  lemma PlainQuery(caps: Caps, ext: Device, dev: Device, ordinary: set<U32>, compounds: set<U32>, asked: nat, id: U32)
    requires Honours(Asked(caps, ext, dev), ordinary, compounds) && id < ID_LIMIT
    ensures Query(caps, ext, dev, asked, id, false, false) ==
            Outcome(if id in ordinary + compounds then 0 else EINVAL, id, asked + 1)
  {
    assert Asked(caps, ext, dev)(asked, id) == if id in ordinary + compounds then Found(id) else Failed(EINVAL);
    SingleQuery(dev, asked, id, false, caps.haveNextCtrl);
  }

  /** The ids returned by stepping again and again from `id`; an answer that does not advance ends it. */
  function Walk(caps: Caps, ext: Device, dev: Device, asked: nat, id: U32, next: bool, compound: bool): seq<U32>
    requires id < ID_LIMIT
    decreases ID_LIMIT - id
  {
    var o := Query(caps, ext, dev, asked, id, next, compound);
    if o.ret == 0 && id < o.id < ID_LIMIT then [o.id] + Walk(caps, ext, dev, o.asked, o.id, next, compound) else []
  }

  /** Stepping visits every control asked for once, in increasing order, and no other. */
  lemma {:induction false} WalkVisitsAll(caps: Caps, ext: Device, dev: Device, ordinary: set<U32>, compounds: set<U32>,
                                         asked: nat, id: U32, next: bool, compound: bool)
    requires Honours(Asked(caps, ext, dev), ordinary, compounds) && id < ID_LIMIT
    requires PlainIds(ordinary) && PlainIds(compounds)
    requires caps.haveNextCtrl && (next || (compound && caps.haveQueryExtCtrl))
    ensures Lists(Walk(caps, ext, dev, asked, id, next, compound),
                  Pool(ordinary, compounds, next, compound && caps.haveQueryExtCtrl), id)
    decreases ID_LIMIT - id
  {
    hide Query, Honours;
    StepFindsFirst(caps, ext, dev, ordinary, compounds, asked, id, next, compound);
    var o := Query(caps, ext, dev, asked, id, next, compound);
    if o.ret == 0 {
      WalkVisitsAll(caps, ext, dev, ordinary, compounds, o.asked, o.id, next, compound);
      var rest := Walk(caps, ext, dev, o.asked, o.id, next, compound);
      var pool := Pool(ordinary, compounds, next, compound && caps.haveQueryExtCtrl);
      FirstThenRest(pool, id, o.id, rest);
      assert Walk(caps, ext, dev, asked, id, next, compound) == [o.id] + rest;
    } else {
      assert Walk(caps, ext, dev, asked, id, next, compound) == [];
    }
  }
}
