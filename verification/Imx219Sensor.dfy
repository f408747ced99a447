/**
  The IMX219 driver as a state machine: mode and format, flips, blanking and exposure
  ranges, streaming and runtime PM, over a bus on which any register write may fail.

  The V4L2 control framework is taken at its contract: modify_range replaces the range and
  clamps the value, setting a control calls the driver only on a change, and a new value is
  committed only if the driver accepts it.
 */
module Imx219Sensor {
  import opened Imx219Tables

  /** Media bus codes: four Bayer orders at 10 bits, then the same four at 8 bits. */
  function Codes(): (s: seq<nat>)
    ensures |s| == 8
  {
    [0x300f, 0x300a, 0x300e, 0x3007, 0x3014, 0x3002, 0x3013, 0x3001]
  }

  const VTS_MAX := 0xffff
  const VBLANK_MIN := 4
  const PPL_DEFAULT := 3448
  const EXPOSURE_MIN := 4
  const EXPOSURE_DEFAULT := 0x640

  datatype Ctrl = Ctrl(min: int, max: int, def: int, val: int)

  /** Plain(k) are the controls that only write one register: gains, test pattern, test colours. */
  datatype CtrlId = Vblank | Exposure | Hblank | Hflip | Vflip | Plain(k: nat)

  /** `sent` counts attempted register writes, `log` holds those that reached the sensor. */
  datatype Cam = Cam(mode: nat, code: nat, vblank: Ctrl, exposure: Ctrl, hblank: Ctrl, hflip: Ctrl, vflip: Ctrl,
                     plain: seq<Ctrl>, hflipGrabbed: bool, vflipGrabbed: bool, streaming: bool, usage: int,
                     othersUse: bool,
                     sent: nat, log: seq<Write>)

  /** dev(n) says whether the n-th attempted write succeeds. */
  type Bus = nat -> bool

  // ---------- Register writes ----------

  function WriteReg(c: Cam, dev: Bus, w: Write): (Cam, bool) {
    if dev(c.sent) then (c.(sent := c.sent + 1, log := c.log + [w]), true) else (c.(sent := c.sent + 1), false)
  }

  function WriteRegs(c: Cam, dev: Bus, regs: seq<Write>): (Cam, bool)
    decreases |regs|
  {
    if regs == [] then (c, true) else
      var (c1, ok) := WriteReg(c, dev, regs[0]);
      if ok then WriteRegs(c1, dev, regs[1..]) else (c1, false)
  }

  /** How many of the next n writes succeed before the first failure. */
  function Reached(dev: Bus, sent: nat, n: nat): (k: nat)
    ensures k <= n
    ensures forall j :: sent <= j < sent + k ==> dev(j)
    ensures k < n ==> !dev(sent + k)
    decreases n
  {
    if n == 0 || !dev(sent) then 0 else 1 + Reached(dev, sent + 1, n - 1)
  }

  // ---------- Formats ----------

  /** Position of a code in the table from i on, 0 if it is not there. */
  function CodeIndexFrom(code: nat, i: nat): (k: nat)
    requires i <= 8
    ensures k < 8
    ensures code in Codes()[i..] ==> Codes()[k] == code
    ensures code !in Codes()[i..] ==> k == 0
    decreases 8 - i
  {
    if i == 8 then 0 else if Codes()[i] == code then i else CodeIndexFrom(code, i + 1)
  }

  function CodeIndex(code: nat): (k: nat)
    ensures k < 8
    ensures code in Codes() ==> Codes()[k] == code
  {
    CodeIndexFrom(code, 0)
  }

  /** The table position in the same group of four that the flips select. */
  function FlippedIndex(i: nat, hflip: bool, vflip: bool): (k: nat)
    requires i < 8
    ensures k < 8 && k / 4 == i / 4
  {
    i / 4 * 4 + (if vflip then 2 else 0) + (if hflip then 1 else 0)
  }

  /** imx219_get_format_code. */
  function FormatCode(c: Cam, code: nat): nat {
    Codes()[FlippedIndex(CodeIndex(code), c.hflip.val != 0, c.vflip.val != 0)]
  }

  function Depth(code: nat): nat {
    if code in Codes()[4..] then 8 else if code in Codes()[..4] then 10 else 0
  }

  /** The registers imx219_set_framefmt writes; none stands for -EINVAL. */
  function FrameFormatRegs(code: nat): seq<Write> {
    var depth := Depth(code);
    if depth == 0 then [] else [Write(0x018c, 1, depth), Write(0x018d, 1, depth), Write(0x0309, 1, depth)]
  }

  // ---------- Controls ----------

  const PLAIN_REGS: seq<(nat, nat)> :=
    [(0x0157, 1), (0x0158, 2), (0x0600, 2), (0x0602, 2), (0x0604, 2), (0x0606, 2), (0x0608, 2)]

  const TEST_PATTERN_VAL: seq<nat> := [0, 2, 1, 3, 4]

  predicate InUse(c: Cam) {
    c.usage > 0 || c.othersUse
  }

  function Height(c: Cam): int {
    if c.mode < |MODES| then MODES[c.mode].height else 0
  }

  function Width(c: Cam): int {
    if c.mode < |MODES| then MODES[c.mode].width else 0
  }

  function Clamp(v: int, lo: int, hi: int): int {
    if v < lo then lo else if v > hi then hi else v
  }

  function Get(c: Cam, id: CtrlId): Ctrl {
    match id
    case Vblank => c.vblank
    case Exposure => c.exposure
    case Hblank => c.hblank
    case Hflip => c.hflip
    case Vflip => c.vflip
    case Plain(k) => if k < |c.plain| then c.plain[k] else Ctrl(0, 0, 0, 0)
  }

  function Put(c: Cam, id: CtrlId, x: Ctrl): Cam {
    match id
    case Vblank => c.(vblank := x)
    case Exposure => c.(exposure := x)
    case Hblank => c.(hblank := x)
    case Hflip => c.(hflip := x)
    case Vflip => c.(vflip := x)
    case Plain(k) => if k < |c.plain| then c.(plain := c.plain[k := x]) else c
  }

  /** The value a register write carries; registers are unsigned. */
  function Val(v: int): nat {
    if v < 0 then 0 else v
  }

  /** The register write that the switch in imx219_set_ctrl makes; none for an unhandled control. */
  function CtrlWrite(c: Cam, id: CtrlId, val: int): seq<Write> {
    match id
    case Vblank => [Write(0x0160, 2, Val(Height(c) + val))]
    case Exposure => [Write(0x015a, 2, Val(val))]
    case Hblank => []
    case Hflip => [Write(0x0172, 1, Val(val + 2 * c.vflip.val))]
    case Vflip => [Write(0x0172, 1, Val(c.hflip.val + 2 * val))]
    case Plain(k) =>
      if k >= |PLAIN_REGS| then [] else
        var v := if k == 2 then (if 0 <= val < |TEST_PATTERN_VAL| then TEST_PATTERN_VAL[val] else 0) else Val(val);
        [Write(PLAIN_REGS[k].0, PLAIN_REGS[k].1, v)]
  }

  /** imx219_set_ctrl from the runtime PM test on: nothing to do unless the sensor is in use. */
  function ApplyCtrl(c: Cam, dev: Bus, id: CtrlId, val: int): (Cam, bool) {
    if !InUse(c) then (c, true)
    else if CtrlWrite(c, id, val) == [] then (c, false)
    else WriteReg(c, dev, CtrlWrite(c, id, val)[0])
  }

  function Commit(r: (Cam, bool), id: CtrlId, val: int): Cam {
    if r.1 then Put(r.0, id, Get(r.0, id).(val := val)) else r.0
  }

  /** __v4l2_ctrl_modify_range on the exposure control. */
  function ModifyExposure(c: Cam, dev: Bus, max: int): Cam {
    var def := if max < EXPOSURE_DEFAULT then max else EXPOSURE_DEFAULT;
    if max < c.exposure.min || def < c.exposure.min then c else
      var c1 := c.(exposure := Ctrl(c.exposure.min, max, def, c.exposure.val));
      var v := Clamp(c.exposure.val, c.exposure.min, max);
      if v == c.exposure.val then c1 else Commit(ApplyCtrl(c1, dev, Exposure, v), Exposure, v)
  }

  /** imx219_set_ctrl. */
  function SetCtrl(c: Cam, dev: Bus, id: CtrlId, val: int): (Cam, bool) {
    var c1 := if id.Vblank? then ModifyExposure(c, dev, Height(c) + val - 4) else c;
    ApplyCtrl(c1, dev, id, val)
  }

  function SetIfChanged(c: Cam, dev: Bus, id: CtrlId, v: int): (Cam, bool) {
    if v == Get(c, id).val then (c, true) else
      var r := SetCtrl(c, dev, id, v);
      (Commit(r, id, v), r.1)
  }

  /** __v4l2_ctrl_modify_range on a blanking control. */
  function ModifyRange(c: Cam, dev: Bus, id: CtrlId, min: int, max: int, def: int): Cam {
    if max < min || def < min || max < def then c else
      var c1 := Put(c, id, Ctrl(min, max, def, Get(c, id).val));
      SetIfChanged(c1, dev, id, Clamp(Get(c, id).val, min, max)).0
  }

  predicate Grabbed(c: Cam, id: CtrlId) {
    (id.Hflip? && c.hflipGrabbed) || (id.Vflip? && c.vflipGrabbed)
  }

  /** A control set by the user. HBLANK is read-only, grabbed controls are busy. */
  function UserSet(c: Cam, dev: Bus, id: CtrlId, v: int): (Cam, bool) {
    if id.Hblank? || Grabbed(c, id) then (c, false)
    else SetIfChanged(c, dev, id, Clamp(v, Get(c, id).min, Get(c, id).max))
  }

  // ---------- Setting the active format ----------

  /** The rest of imx219_set_pad_format once mode and code are stored: new ranges, default frame rate. */
  function Retime(c1: Cam, dev: Bus): Cam
    requires c1.mode < 4
  {
    var m := MODES[c1.mode];
    var c2 := ModifyRange(c1, dev, Vblank, VBLANK_MIN, VTS_MAX - m.height, m.vtsDef - m.height);
    var c3 := SetIfChanged(c2, dev, Vblank, Clamp(m.vtsDef - m.height, c2.vblank.min, c2.vblank.max)).0;
    var c4 := ModifyExposure(c3, dev, m.vtsDef - 4);
    ModifyRange(c4, dev, Hblank, PPL_DEFAULT - m.width, PPL_DEFAULT - m.width, PPL_DEFAULT - m.width)
  }

  /** imx219_set_pad_format for the active format; `nearest` is the table entry closest to the asked size. */
  function SetActiveFormat(c: Cam, dev: Bus, code: nat, nearest: nat): Cam
    requires nearest < 4
  {
    var newCode := FormatCode(c, Codes()[CodeIndex(code)]);
    if c.mode == nearest && c.code == newCode then c else Retime(c.(code := newCode, mode := nearest), dev)
  }

  // ---------- Streaming ----------

  /** The controls in the order imx219_init_controls makes them, without the read-only ones. */
  const SETUP_ORDER: seq<CtrlId> :=
    [Vblank, Exposure, Plain(0), Plain(1), Hflip, Vflip, Plain(2), Plain(3), Plain(4), Plain(5), Plain(6)]

  /** __v4l2_ctrl_handler_setup: every control is applied again, up to the first failure. */
  function Setup(c: Cam, dev: Bus, ids: seq<CtrlId>): (Cam, bool)
    decreases |ids|
  {
    if ids == [] then (c, true) else
      var (c1, ok) := SetCtrl(c, dev, ids[0], Get(c, ids[0]).val);
      if ok then Setup(c1, dev, ids[1..]) else (c1, false)
  }

  /** imx219_set_framefmt. */
  function SetFramefmt(c: Cam, dev: Bus): (Cam, bool) {
    if FrameFormatRegs(c.code) == [] then (c, false) else WriteRegs(c, dev, FrameFormatRegs(c.code))
  }

  function StartStreaming(c: Cam, dev: Bus): (Cam, bool)
    requires c.mode < 4
  {
    var (c1, ok1) := WriteRegs(c, dev, ModeRegs(c.mode));
    if !ok1 then (c1, false) else
    var (c2, ok2) := SetFramefmt(c1, dev);
    if !ok2 then (c2, false) else
    var (c3, ok3) := Setup(c2, dev, SETUP_ORDER);
    if !ok3 then (c3, false) else
    WriteReg(c3, dev, Write(REG_MODE_SELECT, 1, MODE_STREAMING))
  }

  /** imx219_set_stream; `powered` is the outcome of pm_runtime_get_sync. */
  function SetStream(c: Cam, dev: Bus, enable: bool, powered: bool): Cam
    requires c.mode < 4
  {
    if c.streaming == enable then c
    else if enable then
      var c1 := c.(usage := c.usage + 1);
      if !powered then c1.(usage := c1.usage - 1) else
        var (c2, ok) := StartStreaming(c1, dev);
        if !ok then c2.(usage := c2.usage - 1)
        else c2.(streaming := true, vflipGrabbed := true, hflipGrabbed := true)
    else
      var c1 := WriteReg(c, dev, Write(REG_MODE_SELECT, 1, MODE_STANDBY)).0;
      c1.(usage := c1.usage - 1, streaming := false, vflipGrabbed := false, hflipGrabbed := false)
  }

  // ---------- Runs ----------

  datatype Op =
    | Format(code: nat, nearest: nat)
    | Control(id: CtrlId, v: int)
    | Stream(enable: bool, powered: bool)
    | Others(use: bool)  // someone else takes or drops a runtime PM reference

  predicate Possible(op: Op) {
    op.Format? ==> op.nearest < 4
  }

  function Do(c: Cam, dev: Bus, op: Op): Cam
    requires c.mode < 4 && Possible(op)
  {
    match op
    case Format(code, nearest) => SetActiveFormat(c, dev, code, nearest)
    case Control(id, v) => UserSet(c, dev, id, v).0
    case Stream(enable, powered) => SetStream(c, dev, enable, powered)
    case Others(use) => c.(othersUse := use)
  }

  /** The state after probe: mode 0, and the ranges of imx219_init_controls. */
  function Initial(): Cam {
    var m := MODES[0];
    Cam(0, Codes()[0],
        Ctrl(VBLANK_MIN, VTS_MAX - m.height, m.vtsDef - m.height, m.vtsDef - m.height),
        Ctrl(EXPOSURE_MIN, m.vtsDef - 4, EXPOSURE_DEFAULT, EXPOSURE_DEFAULT),
        Ctrl(PPL_DEFAULT - m.width, PPL_DEFAULT - m.width, PPL_DEFAULT - m.width, PPL_DEFAULT - m.width),
        Ctrl(0, 1, 0, 0), Ctrl(0, 1, 0, 0),
        [Ctrl(0, 232, 0, 0), Ctrl(0x0100, 0x0fff, 0x0100, 0x0100), Ctrl(0, 4, 0, 0),
         Ctrl(0, 0x03ff, 0x03ff, 0x03ff), Ctrl(0, 0x03ff, 0x03ff, 0x03ff), Ctrl(0, 0x03ff, 0x03ff, 0x03ff),
         Ctrl(0, 0x03ff, 0x03ff, 0x03ff)],
        false, false, false, 0, false, 0, [])
  }
}
