/**
 * Three OV5648 registers are shared by unrelated settings, which update their
 * own bits by read-modify-write: TC20 and TC21 by mode and flip, MANUAL_CTRL
 * by automatic exposure and automatic gain.
 */
module Ov5648Registers {

  type U8 = bv8

  const MANUAL_CTRL: nat := 0x3503
  const TC20: nat := 0x3820
  const TC21: nat := 0x3821

  const AGC_MANUAL_EN: U8 := 0x02
  const AEC_MANUAL_EN: U8 := 0x01
  const TC20_DEBUG: U8 := 0x40
  const FLIP_BITS: U8 := 0x06
  const BINNING_EN: U8 := 0x01

  /** The geometry registers a mode writes before the flip and binning ones, in order. */
  const GEOMETRY: seq<nat> := [
    0x3800, 0x3801, 0x3810, 0x3811, 0x3808, 0x3809, 0x3804, 0x3805, 0x380c, 0x380d,
    0x3802, 0x3803, 0x3812, 0x3813, 0x380a, 0x380b, 0x3806, 0x3807, 0x380e, 0x380f]

  /** The subsampling registers, and then those of the two PLLs. */
  const SUBSAMPLING: seq<nat> := [0x3814, 0x3815]
  const PLLS: seq<nat> := [0x3034, 0x3037, 0x3036, 0x3035, 0x3106, 0x303d, 0x303b, 0x303c]

  /** Whether the n-th I2C transfer succeeds. */
  type Bus = nat -> bool

  /** The sensor's registers and the number of transfers attempted so far. */
  datatype Dev = Dev(regs: map<nat, U8>, sent: nat)

  function Peek(regs: map<nat, U8>, a: nat): U8 { if a in regs then regs[a] else 0 }

  datatype Access = Put(addr: nat, value: U8) | Update(addr: nat, mask: U8, bits: U8)

  function Blend(v: U8, mask: U8, bits: U8): U8 { (v & !mask) | bits }

  /** ov5648_write. */
  function Write(d: Dev, bus: Bus, a: nat, v: U8): (Dev, bool) {
    if bus(d.sent) then (Dev(d.regs[a := v], d.sent + 1), true) else (d.(sent := d.sent + 1), false)
  }

  /** ov5648_read: the address is sent, then the byte received. */
  function ReadTransfers(d: Dev, bus: Bus): (Dev, bool) {
    if !bus(d.sent) then (d.(sent := d.sent + 1), false) else (d.(sent := d.sent + 2), bus(d.sent + 1))
  }

  /** ov5648_write or ov5648_update_bits. */
  function Do(d: Dev, bus: Bus, x: Access): (Dev, bool) {
    match x
    case Put(a, v) => Write(d, bus, a, v)
    case Update(a, mask, bits) =>
      var (d1, ok) := ReadTransfers(d, bus);
      if ok then Write(d1, bus, a, Blend(Peek(d1.regs, a), mask, bits)) else (d1, false)
  }

  /** A configure function: accesses in order, up to the first failure. */
  function DoAll(d: Dev, bus: Bus, xs: seq<Access>): (Dev, bool)
    decreases |xs|
  {
    if xs == [] then (d, true) else
      var (d1, ok) := Do(d, bus, xs[0]);
      if ok then DoAll(d1, bus, xs[1..]) else (d1, false)
  }

  /** A mode's binning flags and the other register values it brings. */
  datatype Mode = Mode(binningX: bool, binningY: bool, geometry: nat -> U8, subsampling: nat -> U8, pll: nat -> U8)

  /** SetMode's codeKnown says whether the media bus code has a PLL configuration. */
  datatype Op =
    | SetMode(mode: Mode, codeKnown: bool)
    | FlipVert(enable: bool)
    | FlipHorz(enable: bool)
    | ExposureAuto(enable: bool)
    | GainAuto(enable: bool)

  function Puts(addrs: seq<nat>, value: nat -> U8): (xs: seq<Access>)
    ensures |xs| == |addrs| && forall i :: 0 <= i < |xs| ==> xs[i] == Put(addrs[i], value(i))
  {
    seq(|addrs|, i requires 0 <= i < |addrs| => Put(addrs[i], value(i)))
  }

  function Flag(on: bool, bits: U8): U8 { if on then bits else 0 }

  /** ov5648_mode_configure. */
  function ModeAccesses(m: Mode, codeKnown: bool): seq<Access> {
    Puts(GEOMETRY, m.geometry)
    + [Update(TC20, TC20_DEBUG | BINNING_EN, Flag(m.binningY, BINNING_EN)),
       Update(TC21, BINNING_EN, Flag(m.binningX, BINNING_EN))]
    + Puts(SUBSAMPLING, m.subsampling)
    + if codeKnown then Puts(PLLS, m.pll) else []
  }

  function Accesses(op: Op): seq<Access> {
    match op
    case SetMode(m, known) => ModeAccesses(m, known)
    case FlipVert(on) => [Update(TC20, FLIP_BITS, Flag(on, FLIP_BITS))]
    case FlipHorz(on) => [Update(TC21, FLIP_BITS, Flag(on, FLIP_BITS))]
    case ExposureAuto(on) => [Update(MANUAL_CTRL, AEC_MANUAL_EN, Flag(!on, AEC_MANUAL_EN))]
    case GainAuto(on) => [Update(MANUAL_CTRL, AGC_MANUAL_EN, Flag(!on, AGC_MANUAL_EN))]
  }

  function Apply(d: Dev, bus: Bus, op: Op): (Dev, bool) {
    var (d1, ok) := DoAll(d, bus, Accesses(op));
    (d1, ok && (op.SetMode? ==> op.codeKnown))
  }

  // The fields of the three registers, and who sets them.

  datatype Field =
    | Debug | VertFlip | VertBinning | Rest20
    | HorzFlip | HorzBinning | Rest21
    | ManualGain | ManualExposure | RestManual

  function Home(f: Field): nat {
    match f
    case Debug | VertFlip | VertBinning | Rest20 => TC20
    case HorzFlip | HorzBinning | Rest21 => TC21
    case ManualGain | ManualExposure | RestManual => MANUAL_CTRL
  }

  function Mask(f: Field): U8 {
    match f
    case Debug => 0x40
    case VertFlip | HorzFlip => 0x06
    case VertBinning | HorzBinning | ManualExposure => 0x01
    case ManualGain => 0x02
    case Rest20 => 0xb8
    case Rest21 => 0xf8
    case RestManual => 0xfc
  }

  /** The bits of v under a mask. */
  function Bits(v: U8, m: U8): U8 { v & m }

  function FieldValue(regs: map<nat, U8>, f: Field): U8 { Bits(Peek(regs, Home(f)), Mask(f)) }

  datatype Request = None | Want(bits: U8)

  /** What an operation asks of a field: nothing, or a value. */
  function Asks(op: Op, f: Field): Request {
    match f
    case Debug => if op.SetMode? then Want(0) else None
    case VertBinning => if op.SetMode? then Want(Flag(op.mode.binningY, 0x01)) else None
    case HorzBinning => if op.SetMode? then Want(Flag(op.mode.binningX, 0x01)) else None
    case VertFlip => if op.FlipVert? then Want(Flag(op.enable, 0x06)) else None
    case HorzFlip => if op.FlipHorz? then Want(Flag(op.enable, 0x06)) else None
    case ManualExposure => if op.ExposureAuto? then Want(Flag(!op.enable, 0x01)) else None
    case ManualGain => if op.GainAuto? then Want(Flag(!op.enable, 0x02)) else None
    case Rest20 | Rest21 | RestManual => None
  }

  /** Fields of one register share no bit, and together they are the whole register. */
  lemma FieldsPartition(f: Field, g: Field)
    ensures f != g && Home(f) == Home(g) ==> Mask(f) & Mask(g) == 0
    ensures Mask(Debug) | Mask(VertFlip) | Mask(VertBinning) | Mask(Rest20) == 0xff
    ensures Mask(HorzFlip) | Mask(HorzBinning) | Mask(Rest21) == 0xff
    ensures Mask(ManualGain) | Mask(ManualExposure) | Mask(RestManual) == 0xff
  {
  }

  /** An access outside the field's register, or on bits it does not own. */
  predicate Misses(x: Access, f: Field) {
    x.addr != Home(f) || (x.Update? && Bits(x.mask, Mask(f)) == 0 && Bits(x.bits, Mask(f)) == 0)
  }

  /** An update of the whole field to v. */
  predicate Hits(x: Access, f: Field, v: U8) {
    x.Update? && x.addr == Home(f) && Bits(x.mask, Mask(f)) == Mask(f) && Bits(x.bits, Mask(f)) == v
  }

  lemma BlendMisses(v: U8, mask: U8, bits: U8, m: U8)
    requires Bits(mask, m) == 0 && Bits(bits, m) == 0
    ensures Bits(Blend(v, mask, bits), m) == Bits(v, m)
  {
  }

  lemma BlendHits(v: U8, mask: U8, bits: U8, m: U8)
    requires Bits(mask, m) == m
    ensures Bits(Blend(v, mask, bits), m) == Bits(bits, m)
  {
  }

  /** What one access does to the registers: its own one if it succeeds, no other, and none if it fails. */
  lemma DoChanges(d: Dev, bus: Bus, x: Access, a: nat)
    ensures var (d', ok) := Do(d, bus, x);
            Peek(d'.regs, a) ==
            if !ok || a != x.addr then Peek(d.regs, a)
            else if x.Put? then x.value
            else Blend(Peek(d.regs, a), x.mask, x.bits)
  {
    hide Blend;
  }

  lemma DoMisses(d: Dev, bus: Bus, x: Access, f: Field)
    requires Misses(x, f)
    ensures FieldValue(Do(d, bus, x).0.regs, f) == FieldValue(d.regs, f)
  {
    hide Blend, Mask, Do, Peek, Bits;
    DoChanges(d, bus, x, Home(f));
    if x.Update? && x.addr == Home(f) {
      BlendMisses(Peek(d.regs, x.addr), x.mask, x.bits, Mask(f));
    }
  }

  lemma DoHits(d: Dev, bus: Bus, x: Access, f: Field, v: U8)
    requires Hits(x, f, v)
    ensures var (d', ok) := Do(d, bus, x);
            FieldValue(d'.regs, f) == if ok then v else FieldValue(d.regs, f)
  {
    hide Blend, Mask, Do, Peek, Home, Bits;
    DoChanges(d, bus, x, Home(f));
    BlendHits(Peek(d.regs, x.addr), x.mask, x.bits, Mask(f));
  }

  lemma {:induction false} DoAllMisses(d: Dev, bus: Bus, xs: seq<Access>, f: Field)
    requires forall i :: 0 <= i < |xs| ==> Misses(xs[i], f)
    ensures FieldValue(DoAll(d, bus, xs).0.regs, f) == FieldValue(d.regs, f)
    decreases |xs|
  {
    hide Do, Misses, FieldValue;
    if xs != [] {
      DoMisses(d, bus, xs[0], f);
      DoAllMisses(Do(d, bus, xs[0]).0, bus, xs[1..], f);
    }
  }

  /** One access hits the field, the others miss it: the field is set if the run got that far, and else untouched. */
  lemma {:induction false} DoAllHits(d: Dev, bus: Bus, xs: seq<Access>, k: nat, f: Field, v: U8)
    requires k < |xs| && Hits(xs[k], f, v)
    requires forall i :: 0 <= i < |xs| && i != k ==> Misses(xs[i], f)
    ensures var (d', ok) := DoAll(d, bus, xs);
            FieldValue(d'.regs, f) == v || (!ok && FieldValue(d'.regs, f) == FieldValue(d.regs, f))
    decreases |xs|
  {
    hide Do, Misses, Hits, FieldValue;
    var (d1, ok1) := Do(d, bus, xs[0]);
    if k == 0 {
      DoHits(d, bus, xs[0], f, v);
      DoAllMisses(d1, bus, xs[1..], f);
    } else {
      DoMisses(d, bus, xs[0], f);
      DoAllHits(d1, bus, xs[1..], k - 1, f, v);
    }
  }

  lemma PutsMiss(addrs: seq<nat>, value: nat -> U8, f: Field)
    requires TC20 !in addrs && TC21 !in addrs && MANUAL_CTRL !in addrs
    ensures forall i :: 0 <= i < |addrs| ==> Misses(Puts(addrs, value)[i], f)
  {
  }

  /** A mode reaches the shared registers only through its two updates. */
  lemma ModeParts(m: Mode, known: bool, f: Field)
    ensures var xs := ModeAccesses(m, known);
            |xs| >= 22
            && xs[20] == Update(TC20, 0x41, Flag(m.binningY, 0x01))
            && xs[21] == Update(TC21, 0x01, Flag(m.binningX, 0x01))
            && forall i :: 0 <= i < |xs| && i != 20 && i != 21 ==> Misses(xs[i], f)
  {
    hide Misses;
    PutsMiss(GEOMETRY, m.geometry, f);
    PutsMiss(SUBSAMPLING, m.subsampling, f);
    PutsMiss(PLLS, m.pll, f);
  }

  lemma ModeSetsFields(d: Dev, bus: Bus, m: Mode, known: bool, f: Field)
    ensures var (d', ok) := Apply(d, bus, SetMode(m, known));
            var want := Asks(SetMode(m, known), f);
            if want == None then FieldValue(d'.regs, f) == FieldValue(d.regs, f)
            else FieldValue(d'.regs, f) == want.bits || (!ok && FieldValue(d'.regs, f) == FieldValue(d.regs, f))
  {
    hide DoAll, ModeAccesses, FieldValue;
    var xs := ModeAccesses(m, known);
    ModeParts(m, known, f);
    match f {
      case Debug => DoAllHits(d, bus, xs, 20, f, 0);
      case VertBinning => DoAllHits(d, bus, xs, 20, f, Flag(m.binningY, 0x01));
      case HorzBinning => DoAllHits(d, bus, xs, 21, f, Flag(m.binningX, 0x01));
      case _ => DoAllMisses(d, bus, xs, f);
    }
  }

  lemma OneUpdate(d: Dev, bus: Bus, x: Access)
    ensures DoAll(d, bus, [x]) == Do(d, bus, x)
  {
    assert [x][1..] == [];
    var (d1, ok) := Do(d, bus, x);
    assert DoAll(d1, bus, [x][1..]) == (d1, true);
  }

  lemma ControlSetsFields(d: Dev, bus: Bus, op: Op, f: Field)
    requires !op.SetMode?
    ensures var (d', ok) := Apply(d, bus, op);
            var want := Asks(op, f);
            if want == None then FieldValue(d'.regs, f) == FieldValue(d.regs, f)
            else FieldValue(d'.regs, f) == want.bits || (!ok && FieldValue(d'.regs, f) == FieldValue(d.regs, f))
  {
    hide DoAll, Do, FieldValue;
    var x := Accesses(op)[0];
    OneUpdate(d, bus, x);
    var want := Asks(op, f);
    if want == None {
      DoMisses(d, bus, x, f);
    } else {
      DoHits(d, bus, x, f, want.bits);
    }
  }

  /**
   * Every operation leaves a field it does not ask for as it was. A field it
   * asks for gets the requested value when the operation succeeds, and that or
   * its old value when it fails.
   */
  lemma ApplySetsFields(d: Dev, bus: Bus, op: Op, f: Field)
    ensures var (d', ok) := Apply(d, bus, op);
            var want := Asks(op, f);
            if want == None then FieldValue(d'.regs, f) == FieldValue(d.regs, f)
            else FieldValue(d'.regs, f) == want.bits || (!ok && FieldValue(d'.regs, f) == FieldValue(d.regs, f))
  {
    hide Apply, Asks, FieldValue;
    if op.SetMode? {
      ModeSetsFields(d, bus, op.mode, op.codeKnown, f);
    } else {
      ControlSetsFields(d, bus, op, f);
    }
  }

  // Whole runs.

  /** The operations in order, with the success of each. */
  function Run(d: Dev, bus: Bus, ops: seq<Op>): (r: (Dev, seq<bool>))
    ensures |r.1| == |ops|
    decreases |ops|
  {
    if ops == [] then (d, []) else
      var (d1, ok) := Apply(d, bus, ops[0]);
      var (d2, oks) := Run(d1, bus, ops[1..]);
      (d2, [ok] + oks)
  }

  /** The values a field may hold: its last successful request, or a later failed one. */
  function Candidates(ops: seq<Op>, oks: seq<bool>, f: Field, start: set<U8>): set<U8>
    requires |ops| == |oks|
    decreases |ops|
  {
    if ops == [] then start else
      var want := Asks(ops[0], f);
      var next := if want == None then start else if oks[0] then {want.bits} else start + {want.bits};
      Candidates(ops[1..], oks[1..], f, next)
  }

  /** Over every run, with any transfers failing, each field holds one of its candidates. */
  lemma {:induction false} RunHoldsCandidate(d: Dev, bus: Bus, ops: seq<Op>, f: Field, start: set<U8>)
    requires FieldValue(d.regs, f) in start
    ensures var (d', oks) := Run(d, bus, ops);
            FieldValue(d'.regs, f) in Candidates(ops, oks, f, start)
    decreases |ops|
  {
    hide Apply, Asks, FieldValue;
    if ops != [] {
      var (d1, ok) := Apply(d, bus, ops[0]);
      ApplySetsFields(d, bus, ops[0], f);
      var want := Asks(ops[0], f);
      var next := if want == None then start else if ok then {want.bits} else start + {want.bits};
      RunHoldsCandidate(d1, bus, ops[1..], f, next);
      var (d2, oks) := Run(d1, bus, ops[1..]);
      assert ([ok] + oks)[1..] == oks;
    }
  }

  /** The last request for a field, or what it held at first. */
  function LastRequest(ops: seq<Op>, f: Field, start: U8): U8
    decreases |ops|
  {
    if ops == [] then start else
      var want := Asks(ops[|ops| - 1], f);
      if want == None then LastRequest(ops[..|ops| - 1], f, start) else want.bits
  }

  lemma {:induction false} LastRequestFromFront(ops: seq<Op>, f: Field, start: U8)
    requires ops != []
    ensures var want := Asks(ops[0], f);
            LastRequest(ops, f, start) == LastRequest(ops[1..], f, if want == None then start else want.bits)
    decreases |ops|
  {
    hide Asks;
    if |ops| > 1 {
      assert ops[1..][|ops| - 2] == ops[|ops| - 1];
      assert ops[1..][..|ops| - 2] == ops[..|ops| - 1][1..];
      LastRequestFromFront(ops[..|ops| - 1], f, start);
    } else {
      assert ops[1..] == [] && ops[..0] == [];
    }
  }

  lemma {:induction false} OneCandidate(ops: seq<Op>, oks: seq<bool>, f: Field, start: U8)
    requires |ops| == |oks| && forall i :: 0 <= i < |oks| ==> oks[i]
    ensures Candidates(ops, oks, f, {start}) == {LastRequest(ops, f, start)}
    decreases |ops|
  {
    hide Asks;
    if ops != [] {
      var want := Asks(ops[0], f);
      LastRequestFromFront(ops, f, start);
      OneCandidate(ops[1..], oks[1..], f, if want == None then start else want.bits);
    }
  }

  /**
   * The shared registers do not interfere: after any run in which every
   * operation succeeded, each field holds the last value asked of it, and a
   * field never asked for what it held at first.
   */
  lemma FieldsHoldLastRequest(d: Dev, bus: Bus, ops: seq<Op>, f: Field)
    requires forall i :: 0 <= i < |ops| ==> Run(d, bus, ops).1[i]
    ensures FieldValue(Run(d, bus, ops).0.regs, f) == LastRequest(ops, f, FieldValue(d.regs, f))
  {
    hide FieldValue, LastRequest, Candidates, Run;
    RunHoldsCandidate(d, bus, ops, f, {FieldValue(d.regs, f)});
    OneCandidate(ops, Run(d, bus, ops).1, f, FieldValue(d.regs, f));
  }

  /** The bits no operation owns survive every run, successful or not. */
  lemma {:induction false} RestSurvives(d: Dev, bus: Bus, ops: seq<Op>, f: Field)
    requires f.Rest20? || f.Rest21? || f.RestManual?
    ensures FieldValue(Run(d, bus, ops).0.regs, f) == FieldValue(d.regs, f)
    decreases |ops|
  {
    hide Apply, FieldValue;
    if ops != [] {
      ApplySetsFields(d, bus, ops[0], f);
      RestSurvives(Apply(d, bus, ops[0]).0, bus, ops[1..], f);
    }
  }

  /** The sensor with its registers behind I2C. */
  class Sensor {
    const bus: Bus
    var regs: map<nat, U8>
    var sent: nat

    ghost function View(): Dev
      reads this
    {
      Dev(regs, sent)
    }

    constructor (bus: Bus, powerOn: map<nat, U8>)
      ensures this.bus == bus && View() == Dev(powerOn, 0)
    {
      this.bus := bus;
      regs, sent := powerOn, 0;
    }

    method Read(a: nat) returns (ok: bool, v: U8)
      modifies this
      ensures (View(), ok) == ReadTransfers(old(View()), bus)
      ensures ok ==> v == Peek(regs, a)
    {
      v := 0;
      ok := bus(sent);
      sent := sent + 1;
      if ok {
        ok := bus(sent);
        sent := sent + 1;
        if ok && a in regs {
          v := regs[a];
        }
      }
    }

    method WriteReg(a: nat, v: U8) returns (ok: bool)
      modifies this
      ensures (View(), ok) == Write(old(View()), bus, a, v)
    {
      ok := bus(sent);
      sent := sent + 1;
      if ok {
        regs := regs[a := v];
      }
    }

    /** ov5648_update_bits. */
    method UpdateBits(a: nat, mask: U8, bits: U8) returns (ok: bool)
      modifies this
      ensures (View(), ok) == Do(old(View()), bus, Update(a, mask, bits))
    {
      var v;
      ok, v := Read(a);
      if ok {
        v := v & !mask;
        v := v | bits;
        ok := WriteReg(a, v);
      }
    }

    method PutAll(addrs: seq<nat>, value: nat -> U8) returns (ok: bool)
      modifies this
      ensures (View(), ok) == DoAll(old(View()), bus, Puts(addrs, value))
    {
      ghost var xs := Puts(addrs, value);
      var i := 0;
      while i < |addrs|
        invariant i <= |addrs|
        invariant DoAll(View(), bus, xs[i..]) == DoAll(old(View()), bus, xs)
      {
        assert xs[i..][1..] == xs[i + 1..];
        ok := WriteReg(addrs[i], value(i));
        if !ok {
          return;
        }
        i := i + 1;
      }
      ok := true;
    }

    /** ov5648_mode_configure. */
    method ModeConfigure(m: Mode, codeKnown: bool) returns (ok: bool)
      modifies this
      ensures (View(), ok) == Apply(old(View()), bus, SetMode(m, codeKnown))
    {
      hide DoAll, Do, Puts;
      ghost var d0 := View();
      ghost var first := Puts(GEOMETRY, m.geometry);
      ghost var u20 := Update(TC20, TC20_DEBUG | BINNING_EN, Flag(m.binningY, BINNING_EN));
      ghost var u21 := Update(TC21, BINNING_EN, Flag(m.binningX, BINNING_EN));
      ghost var sub := Puts(SUBSAMPLING, m.subsampling);
      ghost var pll := if codeKnown then Puts(PLLS, m.pll) else [];
      ModeInStages(d0, bus, first, u20, u21, sub, pll);
      ok := PutAll(GEOMETRY, m.geometry);
      if !ok {
        return;
      }
      ok := UpdateBits(TC20, TC20_DEBUG | BINNING_EN, Flag(m.binningY, BINNING_EN));
      if !ok {
        return;
      }
      ok := UpdateBits(TC21, BINNING_EN, Flag(m.binningX, BINNING_EN));
      if !ok {
        return;
      }
      ok := PutAll(SUBSAMPLING, m.subsampling);
      if !ok {
        return;
      }
      NoAccess(View(), bus);
      if !codeKnown {
        return false;
      }
      ok := PutAll(PLLS, m.pll);
    }

    method FlipVertConfigure(enable: bool) returns (ok: bool)
      modifies this
      ensures (View(), ok) == Apply(old(View()), bus, FlipVert(enable))
    {
      hide DoAll, Do;
      OneUpdate(View(), bus, Accesses(FlipVert(enable))[0]);
      ok := UpdateBits(TC20, FLIP_BITS, if enable then FLIP_BITS else 0);
    }

    method FlipHorzConfigure(enable: bool) returns (ok: bool)
      modifies this
      ensures (View(), ok) == Apply(old(View()), bus, FlipHorz(enable))
    {
      hide DoAll, Do;
      OneUpdate(View(), bus, Accesses(FlipHorz(enable))[0]);
      ok := UpdateBits(TC21, FLIP_BITS, if enable then FLIP_BITS else 0);
    }

    method ExposureAutoConfigure(enable: bool) returns (ok: bool)
      modifies this
      ensures (View(), ok) == Apply(old(View()), bus, ExposureAuto(enable))
    {
      hide DoAll, Do;
      OneUpdate(View(), bus, Accesses(ExposureAuto(enable))[0]);
      ok := UpdateBits(MANUAL_CTRL, AEC_MANUAL_EN, if enable then 0 else AEC_MANUAL_EN);
    }

    method GainAutoConfigure(enable: bool) returns (ok: bool)
      modifies this
      ensures (View(), ok) == Apply(old(View()), bus, GainAuto(enable))
    {
      hide DoAll, Do;
      OneUpdate(View(), bus, Accesses(GainAuto(enable))[0]);
      ok := UpdateBits(MANUAL_CTRL, AGC_MANUAL_EN, if enable then 0 else AGC_MANUAL_EN);
    }
  }

  lemma NoAccess(d: Dev, bus: Bus)
    ensures DoAll(d, bus, []) == (d, true)
  {
  }

  lemma {:induction false} DoAllInParts(d: Dev, bus: Bus, xs: seq<Access>, ys: seq<Access>)
    ensures var (d1, ok) := DoAll(d, bus, xs);
            DoAll(d, bus, xs + ys) == if ok then DoAll(d1, bus, ys) else (d1, false)
    decreases |xs|
  {
    hide Do;
    if xs == [] {
      assert xs + ys == ys;
    } else {
      assert (xs + ys)[1..] == xs[1..] + ys;
      DoAllInParts(Do(d, bus, xs[0]).0, bus, xs[1..], ys);
    }
  }

  /** A mode change, one stage after the other. */
  function Then(r: (Dev, bool), bus: Bus, xs: seq<Access>): (Dev, bool) {
    if r.1 then DoAll(r.0, bus, xs) else r
  }

  lemma ModeInStages(d: Dev, bus: Bus, first: seq<Access>, u20: Access, u21: Access, sub: seq<Access>, pll: seq<Access>)
    ensures var r1 := DoAll(d, bus, first);
            var r2 := if r1.1 then Do(r1.0, bus, u20) else r1;
            var r3 := if r2.1 then Do(r2.0, bus, u21) else r2;
            var r4 := Then(r3, bus, sub);
            DoAll(d, bus, first + [u20, u21] + sub + pll) == Then(r4, bus, pll)
  {
    hide DoAll, Do;
    assert [u20, u21] == [u20] + [u21];
    DoAllInParts(d, bus, first + [u20, u21] + sub, pll);
    DoAllInParts(d, bus, first + [u20, u21], sub);
    DoAllInParts(d, bus, first, [u20, u21]);
    var r1 := DoAll(d, bus, first);
    DoAllInParts(r1.0, bus, [u20], [u21]);
    OneUpdate(r1.0, bus, u20);
    OneUpdate(Do(r1.0, bus, u20).0, bus, u21);
  }
}
