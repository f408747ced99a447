/** What holds of the IMX219 driver over every run. */
module Imx219Theorems {
  import opened Imx219Tables
  import opened Imx219Sensor

  // ---------- Formats ----------

  lemma DepthOfIndex(k: nat)
    requires k < 8
    ensures Codes()[k] in Codes() && Depth(Codes()[k]) == (if k < 4 then 10 else 8)
    ensures CodeIndex(Codes()[k]) == k
  {
    assert k == 0 || k == 1 || k == 2 || k == 3 || k == 4 || k == 5 || k == 6 || k == 7;
  }

  ghost predicate CodeInv(c: Cam) {
    c.mode < 4 && c.code in Codes()
  }

  /**
    With a table code stored, imx219_set_framefmt never fails for want of a case, and the depth
    it writes is that of the code get_pad_format reports, whatever the flips are by now.
   */
  lemma FrameFormatAgrees(c: Cam)
    requires CodeInv(c)
    ensures FormatCode(c, c.code) in Codes() && Depth(FormatCode(c, c.code)) == Depth(c.code)
    ensures |FrameFormatRegs(c.code)| == 3
    ensures forall i :: 0 <= i < 3 ==> FrameFormatRegs(c.code)[i].val == Depth(FormatCode(c, c.code))
  {
    hide Codes, CodeIndexFrom, Depth;
    var i := CodeIndex(c.code);
    DepthOfIndex(i);
    DepthOfIndex(FlippedIndex(i, c.hflip.val != 0, c.vflip.val != 0));
  }

  /** Asking for any code at all stores one from the table, of the asked depth if the table has it. */
  lemma StoredCodeInTable(c: Cam, code: nat)
    ensures FormatCode(c, Codes()[CodeIndex(code)]) in Codes()
    ensures code in Codes() ==> Depth(FormatCode(c, Codes()[CodeIndex(code)])) == Depth(code)
  {
    hide Codes, CodeIndexFrom, Depth;
    var i := CodeIndex(code);
    DepthOfIndex(i);
    DepthOfIndex(FlippedIndex(CodeIndex(Codes()[i]), c.hflip.val != 0, c.vflip.val != 0));
  }

  // ---------- What control changes leave alone ----------

  /** Mode, code, streaming state and runtime PM count are untouched, and no attempted write is taken back. */
  ghost predicate SameCore(c: Cam, c': Cam) {
    && c'.mode == c.mode && c'.code == c.code && c'.streaming == c.streaming
    && c'.usage == c.usage && c'.othersUse == c.othersUse
    && c'.hflipGrabbed == c.hflipGrabbed && c'.vflipGrabbed == c.vflipGrabbed
    && c'.sent >= c.sent
  }

  lemma ApplyKeepsCore(c: Cam, dev: Bus, id: CtrlId, v: int, w: int)
    ensures SameCore(c, ApplyCtrl(c, dev, id, v).0)
    ensures SameCore(c, Commit(ApplyCtrl(c, dev, id, v), id, w))
  {
    hide CtrlWrite;
  }

  lemma ExposureKeepsCore(c: Cam, dev: Bus, max: int)
    ensures SameCore(c, ModifyExposure(c, dev, max))
  {
    hide ApplyCtrl, Commit;
    var def := if max < EXPOSURE_DEFAULT then max else EXPOSURE_DEFAULT;
    var v := Clamp(c.exposure.val, c.exposure.min, max);
    ApplyKeepsCore(c.(exposure := Ctrl(c.exposure.min, max, def, c.exposure.val)), dev, Exposure, v, v);
  }

  lemma SetCtrlKeepsCore(c: Cam, dev: Bus, id: CtrlId, v: int)
    ensures SameCore(c, SetCtrl(c, dev, id, v).0)
    ensures SameCore(c, SetIfChanged(c, dev, id, v).0)
  {
    hide ApplyCtrl, ModifyExposure, Commit, Get;
    ExposureKeepsCore(c, dev, Height(c) + v - 4);
    var c1 := if id.Vblank? then ModifyExposure(c, dev, Height(c) + v - 4) else c;
    ApplyKeepsCore(c1, dev, id, v, v);
  }

  lemma ModifyRangeKeepsCore(c: Cam, dev: Bus, id: CtrlId, min: int, max: int, def: int)
    ensures SameCore(c, ModifyRange(c, dev, id, min, max, def))
  {
    hide SetIfChanged;
    var c1 := Put(c, id, Ctrl(min, max, def, Get(c, id).val));
    SetCtrlKeepsCore(c1, dev, id, Clamp(Get(c, id).val, min, max));
  }

  lemma {:induction false} SetupKeepsCore(c: Cam, dev: Bus, ids: seq<CtrlId>)
    ensures SameCore(c, Setup(c, dev, ids).0)
    decreases |ids|
  {
    if ids != [] {
      hide SetCtrl, Get;
      SetCtrlKeepsCore(c, dev, ids[0], Get(c, ids[0]).val);
      SetupKeepsCore(SetCtrl(c, dev, ids[0], Get(c, ids[0]).val).0, dev, ids[1..]);
    }
  }

  // ---------- Streaming and runtime PM ----------

  /** The driver holds one runtime PM reference, and both flips are grabbed, exactly while streaming. */
  ghost predicate StreamInv(c: Cam) {
    c.usage == (if c.streaming then 1 else 0) && c.hflipGrabbed == c.streaming && c.vflipGrabbed == c.streaming
  }

  /** A register list is written up to the first failure and nothing but the log changes. */
  lemma {:induction false} WriteRegsIsPrefix(c: Cam, dev: Bus, regs: seq<Write>)
    ensures var k := Reached(dev, c.sent, |regs|);
            WriteRegs(c, dev, regs) ==
            (c.(sent := c.sent + k + (if k == |regs| then 0 else 1), log := c.log + regs[..k]), k == |regs|)
    decreases |regs|
  {
    hide WriteRegs, Reached;
    OneMoreWrite(c, dev, regs);
    if regs == [] || !dev(c.sent) {
      assert c.log + regs[..0] == c.log;
    } else {
      var c1 := c.(sent := c.sent + 1, log := c.log + [regs[0]]);
      WriteRegsIsPrefix(c1, dev, regs[1..]);
      var k := Reached(dev, c1.sent, |regs| - 1);
      assert c1.log + regs[1..][..k] == c.log + regs[..k + 1];
    }
  }

  /** The first write of a list and how far the list gets with it. */
  lemma OneMoreWrite(c: Cam, dev: Bus, regs: seq<Write>)
    ensures WriteRegs(c, dev, regs) ==
            if regs == [] then (c, true)
            else if dev(c.sent) then WriteRegs(c.(sent := c.sent + 1, log := c.log + [regs[0]]), dev, regs[1..])
            else (c.(sent := c.sent + 1), false)
    ensures Reached(dev, c.sent, |regs|) ==
            if regs == [] || !dev(c.sent) then 0 else 1 + Reached(dev, c.sent + 1, |regs| - 1)
  {
  }

  lemma StartKeepsCore(c: Cam, dev: Bus)
    requires c.mode < 4
    ensures SameCore(c, StartStreaming(c, dev).0)
  {
    hide ModeRegs, FrameFormatRegs, WriteRegs, Setup, WriteReg, SameCore;
    var c1 := WriteRegs(c, dev, ModeRegs(c.mode)).0;
    var c2 := SetFramefmt(c1, dev).0;
    var c3 := Setup(c2, dev, SETUP_ORDER).0;
    CoreOfWrites(c, dev, ModeRegs(c.mode));
    CoreOfWrites(c1, dev, FrameFormatRegs(c1.code));
    SameCoreAsItself(c1);
    CoreThenCore(c, c1, c2);
    SetupKeepsCore(c2, dev, SETUP_ORDER);
    CoreThenCore(c, c2, c3);
    CoreOfWrite(c3, dev, Write(REG_MODE_SELECT, 1, MODE_STREAMING));
    CoreThenCore(c, c3, WriteReg(c3, dev, Write(REG_MODE_SELECT, 1, MODE_STREAMING)).0);
  }

  lemma CoreOfWrites(c: Cam, dev: Bus, regs: seq<Write>)
    ensures SameCore(c, WriteRegs(c, dev, regs).0)
  {
    hide WriteRegs;
    WriteRegsIsPrefix(c, dev, regs);
  }

  lemma CoreOfWrite(c: Cam, dev: Bus, w: Write)
    ensures SameCore(c, WriteReg(c, dev, w).0)
  {
  }

  lemma SameCoreAsItself(c: Cam)
    ensures SameCore(c, c)
  {
  }

  lemma CoreThenCore(c: Cam, c1: Cam, c2: Cam)
    requires SameCore(c, c1) && SameCore(c1, c2)
    ensures SameCore(c, c2)
  {
  }

  /** Through any power-up or register failure, set_stream leaves PM count and grabs matching `streaming`. */
  lemma SetStreamBalanced(c: Cam, dev: Bus, enable: bool, powered: bool)
    requires CodeInv(c) && StreamInv(c)
    ensures StreamInv(SetStream(c, dev, enable, powered)) && CodeInv(SetStream(c, dev, enable, powered))
    ensures SetStream(c, dev, enable, powered).streaming ==> enable
    ensures !enable ==> !SetStream(c, dev, enable, powered).streaming
  {
    hide StartStreaming;
    StartKeepsCore(c.(usage := c.usage + 1), dev);
  }

  // ---------- Blanking and exposure ----------

  ghost predicate AllOk(dev: Bus, from: nat, to: nat) {
    forall k :: from <= k < to ==> dev(k)
  }

  function Lesser(x: int, y: int): int {
    if x < y then x else y
  }

  ghost predicate ExposureFor(c: Cam, max: int) {
    && c.exposure.min == EXPOSURE_MIN && c.exposure.max == max && c.exposure.def == Lesser(max, EXPOSURE_DEFAULT)
    && c.exposure.min <= c.exposure.def <= c.exposure.max
    && c.exposure.min <= c.exposure.val <= c.exposure.max
  }

  ghost predicate VblankFor(c: Cam) {
    c.vblank.min == VBLANK_MIN && c.vblank.max == VTS_MAX - Height(c) && c.vblank.min <= c.vblank.val <= c.vblank.max
  }

  /** Exposure follows the frame length, the frame length fits 16 bits, and the hblank range follows the width. */
  ghost predicate Timing(c: Cam) {
    && c.mode < 4 && ExposureFor(c, Height(c) + c.vblank.val - 4) && VblankFor(c)
    && Height(c) + c.vblank.val <= 0xffff
    && c.hblank.min == c.hblank.max == c.hblank.def == PPL_DEFAULT - Width(c)
  }

  /** Everything but exposure, `sent` and `log`. */
  ghost predicate SameButExposure(c: Cam, c': Cam) {
    SameCore(c, c') && c'.vblank == c.vblank && c'.hblank == c.hblank && c'.hflip == c.hflip && c'.vflip == c.vflip
    && c'.plain == c.plain
  }

  lemma ModifyExposureFrame(c: Cam, dev: Bus, max: int)
    ensures SameButExposure(c, ModifyExposure(c, dev, max))
  {
    hide ApplyCtrl;
    var c1 := c.(exposure := Ctrl(c.exposure.min, max, Lesser(max, EXPOSURE_DEFAULT), c.exposure.val));
    var v := Clamp(c.exposure.val, c.exposure.min, max);
    ApplyFrame(c1, dev, Exposure, v);
    ApplyKeepsCore(c1, dev, Exposure, v, v);
  }

  lemma ApplyOk(c: Cam, dev: Bus, id: CtrlId, v: int)
    requires CtrlWrite(c, id, v) != [] && AllOk(dev, c.sent, ApplyCtrl(c, dev, id, v).0.sent)
    ensures ApplyCtrl(c, dev, id, v).1 && ApplyCtrl(c, dev, id, v).0.exposure == c.exposure
  {
    hide CtrlWrite;
  }

  lemma ModifyExposureFits(c: Cam, dev: Bus, max: int)
    requires c.exposure.min == EXPOSURE_MIN && max >= EXPOSURE_MIN
    requires AllOk(dev, c.sent, ModifyExposure(c, dev, max).sent)
    ensures ExposureFor(ModifyExposure(c, dev, max), max)
  {
    hide CtrlWrite, ApplyCtrl;
    var c1 := c.(exposure := Ctrl(c.exposure.min, max, Lesser(max, EXPOSURE_DEFAULT), c.exposure.val));
    var v := Clamp(c.exposure.val, c.exposure.min, max);
    if v != c.exposure.val {
      ExposureHasWrite(c1, v);
      ApplyOk(c1, dev, Exposure, v);
    }
  }

  /** Whatever the bus does, the exposure range itself moves. */
  lemma ModifyExposureMoves(c: Cam, dev: Bus, max: int)
    requires c.exposure.min == EXPOSURE_MIN && max >= EXPOSURE_MIN
    ensures ModifyExposure(c, dev, max).exposure.min == EXPOSURE_MIN && ModifyExposure(c, dev, max).exposure.max == max
    ensures ExposureFor(c, max) ==> ModifyExposure(c, dev, max) == c
  {
    hide ApplyCtrl;
    ApplyFrame(c.(exposure := Ctrl(c.exposure.min, max, Lesser(max, EXPOSURE_DEFAULT), c.exposure.val)),
               dev, Exposure, Clamp(c.exposure.val, c.exposure.min, max));
  }

  lemma ExposureHasWrite(c: Cam, v: int)
    ensures |CtrlWrite(c, Exposure, v)| == 1
  {
  }

  /** Setting vblank with successful writes moves the exposure range with it. */
  lemma SetVblankFits(c: Cam, dev: Bus, v: int)
    requires c.mode < 4 && c.exposure.min == EXPOSURE_MIN && VBLANK_MIN <= v <= VTS_MAX - Height(c) && v != c.vblank.val
    requires AllOk(dev, c.sent, SetIfChanged(c, dev, Vblank, v).0.sent)
    ensures var c' := SetIfChanged(c, dev, Vblank, v).0;
            && c'.vblank == c.vblank.(val := v) && c'.hblank == c.hblank && SameCore(c, c')
            && ExposureFor(c', Height(c) + v - 4)
  {
    hide ModifyExposure, ApplyCtrl, CtrlWrite;
    HeightIsTabled(c);
    var max := Height(c) + v - 4;
    var c1 := ModifyExposure(c, dev, max);
    ModifyExposureFrame(c, dev, max);
    VblankHasWrite(c1, v);
    ApplyFrame(c1, dev, Vblank, v);
    ApplyKeepsCore(c1, dev, Vblank, v, v);
    ApplyOk(c1, dev, Vblank, v);
    ModifyExposureFits(c, dev, max);
  }

  lemma VblankHasWrite(c: Cam, v: int)
    ensures CtrlWrite(c, Vblank, v) == [Write(0x0160, 2, Val(Height(c) + v))]
  {
  }

  lemma HeightIsTabled(c: Cam)
    requires c.mode < 4
    ensures 480 <= Height(c) <= 2464 && 640 <= Width(c) <= 3280
    ensures MODES[c.mode].height + VBLANK_MIN <= MODES[c.mode].vtsDef <= VTS_MAX
    ensures Height(c) == MODES[c.mode].height && Width(c) == MODES[c.mode].width
  {
  }

  /** An active format change with successful writes re-establishes all of the timing. */
  lemma SetActiveFormatFits(c: Cam, dev: Bus, code: nat, nearest: nat)
    requires Timing(c) && nearest < 4 && AllOk(dev, c.sent, SetActiveFormat(c, dev, code, nearest).sent)
    ensures Timing(SetActiveFormat(c, dev, code, nearest))
  {
    hide FormatCode, CodeIndex, Retime, Codes;
    var newCode := FormatCode(c, Codes()[CodeIndex(code)]);
    if !(c.mode == nearest && c.code == newCode) {
      FormatStages(c.(code := newCode, mode := nearest), dev);
    }
  }

  lemma VblankRangeFits(c: Cam, dev: Bus)
    requires c.mode < 4 && c.exposure.min == EXPOSURE_MIN
    requires AllOk(dev, c.sent,
                   ModifyRange(c, dev, Vblank, VBLANK_MIN, VTS_MAX - Height(c), MODES[c.mode].vtsDef - Height(c)).sent)
    ensures var c' := ModifyRange(c, dev, Vblank, VBLANK_MIN, VTS_MAX - Height(c), MODES[c.mode].vtsDef - Height(c));
            SameCore(c, c') && VblankFor(c') && c'.exposure.min == EXPOSURE_MIN && c'.hblank == c.hblank
  {
    hide ModifyExposure, CtrlWrite, SetCtrl, Commit;
    HeightIsTabled(c);
    var m := MODES[c.mode];
    var c1 := c.(vblank := Ctrl(VBLANK_MIN, VTS_MAX - m.height, m.vtsDef - m.height, c.vblank.val));
    var v := Clamp(c.vblank.val, VBLANK_MIN, VTS_MAX - m.height);
    if v != c.vblank.val {
      SetVblankFits(c1, dev, v);
    }
  }

  lemma HblankRange(c: Cam, dev: Bus, w: int)
    ensures var c' := ModifyRange(c, dev, Hblank, w, w, w);
            && SameCore(c, c') && c'.vblank == c.vblank && c'.exposure == c.exposure
            && c'.sent == c.sent && c'.log == c.log
            && c'.hblank.min == c'.hblank.max == c'.hblank.def == w
            && c'.hblank.val == (if InUse(c) then c.hblank.val else w)
  {
    hide ModifyExposure;
  }

  lemma FormatStages(c1: Cam, dev: Bus)
    requires c1.mode < 4 && c1.exposure.min == EXPOSURE_MIN && AllOk(dev, c1.sent, Retime(c1, dev).sent)
    ensures Timing(Retime(c1, dev))
  {
    hide ModifyExposure, ModifyRange, SetIfChanged;
    HeightIsTabled(c1);
    var m := MODES[c1.mode];
    var v := m.vtsDef - m.height;
    var c2 := ModifyRange(c1, dev, Vblank, VBLANK_MIN, VTS_MAX - m.height, v);
    var clamped := Clamp(v, c2.vblank.min, c2.vblank.max);
    var c3 := SetIfChanged(c2, dev, Vblank, clamped).0;
    var c4 := ModifyExposure(c3, dev, m.vtsDef - 4);
    ModifyRangeKeepsCore(c1, dev, Vblank, VBLANK_MIN, VTS_MAX - m.height, v);
    SetCtrlKeepsCore(c2, dev, Vblank, clamped);
    ExposureKeepsCore(c3, dev, m.vtsDef - 4);
    HblankRange(c4, dev, PPL_DEFAULT - m.width);
    VblankRangeFits(c1, dev);
    VblankSettles(c2, dev, v);
    ModifyExposureFrame(c3, dev, m.vtsDef - 4);
    ModifyExposureFits(c3, dev, m.vtsDef - 4);
  }

  lemma VblankSettles(c: Cam, dev: Bus, v: int)
    requires c.mode < 4 && c.exposure.min == EXPOSURE_MIN && VBLANK_MIN <= v <= VTS_MAX - Height(c)
    requires AllOk(dev, c.sent, SetIfChanged(c, dev, Vblank, v).0.sent)
    ensures var c' := SetIfChanged(c, dev, Vblank, v).0;
            c'.vblank == c.vblank.(val := v) && c'.hblank == c.hblank && c'.exposure.min == EXPOSURE_MIN
  {
    hide SetCtrl, Commit;
    if v != c.vblank.val {
      SetVblankFits(c, dev, v);
    }
  }

  /** A control other than vblank changes its own value at most. */
  lemma PlainControlFrame(c: Cam, dev: Bus, id: CtrlId, v: int)
    requires !id.Vblank? && !id.Hblank?
    ensures var c' := SetIfChanged(c, dev, id, v).0;
            && c'.vblank == c.vblank && c'.hblank == c.hblank
            && (c'.exposure == c.exposure || (id.Exposure? && c'.exposure == c.exposure.(val := v)))
  {
    hide ApplyCtrl;
    ApplyFrame(c, dev, id, v);
  }

  lemma ApplyFrame(c: Cam, dev: Bus, id: CtrlId, v: int)
    ensures var c' := ApplyCtrl(c, dev, id, v).0;
            c'.vblank == c.vblank && c'.hblank == c.hblank && c'.exposure == c.exposure && c'.plain == c.plain
            && c'.hflip == c.hflip && c'.vflip == c.vflip
  {
    hide CtrlWrite;
  }

  /** A user's control change keeps the timing; only a vblank change needs its writes to succeed for that. */
  lemma UserSetFits(c: Cam, dev: Bus, id: CtrlId, v: int)
    requires Timing(c) && (id.Vblank? ==> AllOk(dev, c.sent, UserSet(c, dev, id, v).0.sent))
    ensures Timing(UserSet(c, dev, id, v).0)
  {
    hide SetIfChanged;
    var w := Clamp(v, Get(c, id).min, Get(c, id).max);
    SetCtrlKeepsCore(c, dev, id, w);
    if id.Vblank? {
      VblankSettles(c, dev, w);
      VblankRefits(c, dev, w);
    } else if !id.Hblank? {
      PlainControlFrame(c, dev, id, w);
    }
  }

  lemma VblankRefits(c: Cam, dev: Bus, v: int)
    requires Timing(c) && VBLANK_MIN <= v <= VTS_MAX - Height(c)
             && AllOk(dev, c.sent, SetIfChanged(c, dev, Vblank, v).0.sent)
    ensures ExposureFor(SetIfChanged(c, dev, Vblank, v).0, Height(c) + v - 4)
  {
    hide SetCtrl, Commit;
    if v != c.vblank.val {
      SetVblankFits(c, dev, v);
    }
  }

  /** How many writes the exposure range needs before the frame length is written: its clamped value, if that moves. */
  function ClampWrites(c: Cam, v: int): nat {
    if InUse(c) && Clamp(c.exposure.val, EXPOSURE_MIN, Height(c) + v - 4) != c.exposure.val then 1 else 0
  }

  /**
    With timing established, a vblank change leaves the exposure limit matching the frame length
    exactly if it changes nothing, the sensor is not in use, or the VTS write, which comes after
    the clamped exposure if that has to be written, succeeds.
   */
  lemma VblankMatchesIff(c: Cam, dev: Bus, v: int)
    requires Timing(c) && VBLANK_MIN <= v <= VTS_MAX - Height(c)
    ensures var c' := SetIfChanged(c, dev, Vblank, v).0;
            c'.exposure.max == Height(c') + c'.vblank.val - 4 <==>
            v == c.vblank.val || !InUse(c) || dev(c.sent + ClampWrites(c, v))
  {
    hide ModifyExposure, ApplyCtrl;
    HeightIsTabled(c);
    var max := Height(c) + v - 4;
    var c1 := ModifyExposure(c, dev, max);
    ModifyExposureFrame(c, dev, max);
    ModifyExposureMoves(c, dev, max);
    ModifyExposureSends(c, dev, max);
    ApplyFrame(c1, dev, Vblank, v);
    ApplyKeepsCore(c1, dev, Vblank, v, v);
    ApplySucceedsIff(c1, dev, Vblank, v);
  }

  lemma ApplySucceedsIff(c: Cam, dev: Bus, id: CtrlId, v: int)
    requires Handled(id)
    ensures ApplyCtrl(c, dev, id, v).1 <==> !InUse(c) || dev(c.sent)
  {
    hide CtrlWrite;
    OneWriteEach(c, id, v);
  }

  predicate Handled(id: CtrlId) {
    !id.Hblank? && (id.Plain? ==> id.k < |PLAIN_REGS|)
  }

  lemma OneWriteEach(c: Cam, id: CtrlId, v: int)
    requires Handled(id)
    ensures |CtrlWrite(c, id, v)| == 1
  {
  }

  lemma ExposureApplied(c: Cam, dev: Bus, v: int)
    ensures var (c', ok) := ApplyCtrl(c, dev, Exposure, v);
            c'.exposure == c.exposure
            && (InUse(c) ==> c'.sent == c.sent + 1 && ok == dev(c.sent) && (!ok ==> c'.log == c.log))
            && (!InUse(c) ==> ok && c'.sent == c.sent && c'.log == c.log)
  {
    hide CtrlWrite;
    ExposureHasWrite(c, v);
  }

  /** The exposure range costs one attempted write if its value has to be clamped in use, and none otherwise. */
  lemma ModifyExposureSends(c: Cam, dev: Bus, max: int)
    requires c.exposure.min == EXPOSURE_MIN && max >= EXPOSURE_MIN
    ensures var c1 := ModifyExposure(c, dev, max);
            if !InUse(c) || Clamp(c.exposure.val, EXPOSURE_MIN, max) == c.exposure.val
            then c1.sent == c.sent && c1.log == c.log
            else c1.sent == c.sent + 1 && (!dev(c.sent) ==> c1.log == c.log && c1.exposure.val == c.exposure.val)
  {
    hide ApplyCtrl;
    var v := Clamp(c.exposure.val, EXPOSURE_MIN, max);
    ExposureApplied(c.(exposure := Ctrl(EXPOSURE_MIN, max, Lesser(max, EXPOSURE_DEFAULT), c.exposure.val)), dev, v);
  }

  /**
    The driver has no register case for HBLANK, so the control's value follows the width
    exactly if the sensor is not in use, or the old value happens to fit already.
   */
  lemma HblankFollowsWidthIff(c: Cam, dev: Bus, code: nat, nearest: nat)
    requires c.mode < 4 && nearest < 4 && SetActiveFormat(c, dev, code, nearest) != c
    ensures SetActiveFormat(c, dev, code, nearest).hblank.val + MODES[nearest].width == PPL_DEFAULT <==>
      !InUse(c) || c.hblank.val + MODES[nearest].width == PPL_DEFAULT
  {
    hide FormatCode, CodeIndex, Codes, ModifyExposure, SetIfChanged;
    var c1 := c.(code := FormatCode(c, Codes()[CodeIndex(code)]), mode := nearest);
    var m := MODES[nearest];
    var v := m.vtsDef - m.height;
    var c2 := ModifyRange(c1, dev, Vblank, VBLANK_MIN, VTS_MAX - m.height, v);
    var clamped := Clamp(v, c2.vblank.min, c2.vblank.max);
    var c3 := SetIfChanged(c2, dev, Vblank, clamped).0;
    ModifyRangeKeepsCore(c1, dev, Vblank, VBLANK_MIN, VTS_MAX - m.height, v);
    SetCtrlKeepsCore(c2, dev, Vblank, clamped);
    ExposureKeepsCore(c3, dev, m.vtsDef - 4);
    VblankKeepsHblank(c1.(vblank := Ctrl(VBLANK_MIN, VTS_MAX - m.height, v, c1.vblank.val)), dev,
                      Clamp(c1.vblank.val, VBLANK_MIN, VTS_MAX - m.height));
    VblankKeepsHblank(c2, dev, clamped);
    ModifyExposureFrame(c3, dev, m.vtsDef - 4);
    HblankRange(ModifyExposure(c3, dev, m.vtsDef - 4), dev, PPL_DEFAULT - m.width);
  }

  lemma VblankKeepsHblank(c: Cam, dev: Bus, v: int)
    ensures SetIfChanged(c, dev, Vblank, v).0.hblank == c.hblank
  {
    hide ModifyExposure, ApplyCtrl;
    ModifyExposureFrame(c, dev, Height(c) + v - 4);
    ApplyFrame(ModifyExposure(c, dev, Height(c) + v - 4), dev, Vblank, v);
  }
}
