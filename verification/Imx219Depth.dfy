/** The frame-format registers of the IMX219 against the bit depth of the code the driver reports. */
module Imx219Depth {
  import opened Imx219Tables
  import opened Imx219Sensor
  import opened Imx219Theorems
  import opened Imx219Start
  import opened Imx219Runs

  predicate FormatReg(addr: nat) { addr == 0x018c || addr == 0x018d || addr == 0x0309 }

  /** All three registers hold the depth of the stored code, which is also that of the reported one. */
  predicate DepthCurrent(c: Cam) {
    LastVal(c.log, 0x018c) == LastVal(c.log, 0x018d) == LastVal(c.log, 0x0309) == Depth(c.code)
  }

  /** The depth a requested code stands for; unknown codes stand for the first in the table. */
  function AskedDepth(code: nat): nat { Depth(Codes()[CodeIndex(code)]) }

  lemma FormatRegsAreNoControls(addr: nat)
    requires FormatReg(addr)
    ensures NoControl(addr) && addr != REG_MODE_SELECT
  {
  }

  /** Nothing written to the three registers, and the depth is the same. */
  lemma DepthReads(c: Cam, c': Cam)
    requires DepthCurrent(c) && forall addr :: FormatReg(addr) ==> QuietAt(c.log, c'.log, addr)
    ensures DepthCurrent(c') <==> Depth(c'.code) == Depth(c.code)
  {
    hide LastVal, Depth, QuietAt;
    assert FormatReg(0x018c) && FormatReg(0x018d) && FormatReg(0x0309);
    QuietKeepsLast(c.log, c'.log, 0x018c);
    QuietKeepsLast(c.log, c'.log, 0x018d);
    QuietKeepsLast(c.log, c'.log, 0x0309);
  }

  lemma QuietTwice(a: seq<Write>, b: seq<Write>, d: seq<Write>, addr: nat)
    requires QuietAt(a, b, addr) && QuietAt(b, d, addr)
    ensures QuietAt(a, d, addr)
  {
  }

  // ---------- A format change writes nothing but controls ----------

  lemma ModifyRangeQuiet(c: Cam, dev: Bus, id: CtrlId, min: int, max: int, def: int, addr: nat)
    requires NoControl(addr)
    ensures QuietAt(c.log, ModifyRange(c, dev, id, min, max, def).log, addr)
  {
    hide SetIfChanged, NoControl;
    SetCtrlQuiet(Put(c, id, Ctrl(min, max, def, Get(c, id).val)), dev, id, Clamp(Get(c, id).val, min, max), addr);
  }

  lemma RetimeQuiet(c1: Cam, dev: Bus, addr: nat)
    requires c1.mode < 4 && NoControl(addr)
    ensures QuietAt(c1.log, Retime(c1, dev).log, addr)
  {
    hide ModifyExposure, ModifyRange, SetIfChanged, NoControl, QuietAt;
    var m := MODES[c1.mode];
    var w := PPL_DEFAULT - m.width;
    var c2 := ModifyRange(c1, dev, Vblank, VBLANK_MIN, VTS_MAX - m.height, m.vtsDef - m.height);
    var clamped := Clamp(m.vtsDef - m.height, c2.vblank.min, c2.vblank.max);
    var c3 := SetIfChanged(c2, dev, Vblank, clamped).0;
    var c4 := ModifyExposure(c3, dev, m.vtsDef - 4);
    ModifyRangeQuiet(c1, dev, Vblank, VBLANK_MIN, VTS_MAX - m.height, m.vtsDef - m.height, addr);
    SetCtrlQuiet(c2, dev, Vblank, clamped, addr);
    ExposureQuiet(c3, dev, m.vtsDef - 4, addr);
    ModifyRangeQuiet(c4, dev, Hblank, w, w, w, addr);
    QuietTwice(c1.log, c2.log, c3.log, addr);
    QuietTwice(c1.log, c3.log, c4.log, addr);
    QuietTwice(c1.log, c4.log, Retime(c1, dev).log, addr);
  }

  /**
    A format change writes to no register but those of controls: neither the mode registers nor
    the frame-format registers follow it before the next start.
   */
  lemma FormatWritesOnlyControls(c: Cam, dev: Bus, code: nat, nearest: nat, addr: nat)
    requires nearest < 4 && NoControl(addr)
    ensures QuietAt(c.log, SetActiveFormat(c, dev, code, nearest).log, addr)
  {
    hide FormatCode, CodeIndex, Codes, Retime, NoControl;
    RetimeQuiet(c.(code := FormatCode(c, Codes()[CodeIndex(code)]), mode := nearest), dev, addr);
  }

  lemma StoredDepth(c: Cam, dev: Bus, code: nat, nearest: nat)
    requires nearest < 4
    ensures Depth(SetActiveFormat(c, dev, code, nearest).code) == AskedDepth(code)
  {
    hide Codes, CodeIndexFrom, Depth, Retime;
    var i := CodeIndex(code);
    DepthOfIndex(i);
    DepthOfIndex(FlippedIndex(CodeIndex(Codes()[i]), c.hflip.val != 0, c.vflip.val != 0));
    RetimeKeepsCore(c.(code := FormatCode(c, Codes()[i]), mode := nearest), dev);
  }

  /**
    After a format change the frame-format registers fit the reported code exactly if the depth
    asked for is the old one.
   */
  lemma FormatUpdatesDepthIff(c: Cam, dev: Bus, code: nat, nearest: nat)
    requires DepthCurrent(c) && nearest < 4
    ensures DepthCurrent(SetActiveFormat(c, dev, code, nearest)) <==> AskedDepth(code) == Depth(c.code)
  {
    hide SetActiveFormat, DepthCurrent, QuietAt, AskedDepth;
    forall addr | FormatReg(addr)
      ensures QuietAt(c.log, SetActiveFormat(c, dev, code, nearest).log, addr)
    {
      FormatRegsAreNoControls(addr);
      FormatWritesOnlyControls(c, dev, code, nearest, addr);
    }
    StoredDepth(c, dev, code, nearest);
    DepthReads(c, SetActiveFormat(c, dev, code, nearest));
  }

  // ---------- Whole runs ----------

  /** A successful start sets the registers to the depth of the stored code, whatever was there before. */
  lemma StartSetsDepth(c: Cam, dev: Bus)
    requires CodeInv(c) && StartStreaming(c, dev).1
    ensures DepthCurrent(StartStreaming(c, dev).0)
  {
    hide ModeRegs, Setup, WriteRegs, LastVal, Depth, Codes;
    var c1 := WriteRegs(c, dev, ModeRegs(c.mode)).0;
    WriteRegsOnlyIo(c, dev, ModeRegs(c.mode));
    FrameFormatAgrees(c);
    var regs := FrameFormatRegs(c.code);
    WriteRegsIsPrefix(c1, dev, regs);
    var c2 := SetFramefmt(c1, dev).0;
    var c3 := Setup(c2, dev, SETUP_ORDER).0;
    SetupKeepsCore(c2, dev, SETUP_ORDER);
    ThreeWrites(c1.log, Depth(c.code));
    assert regs[..3] == regs;
    forall addr | FormatReg(addr)
      ensures QuietAt(c2.log, StartStreaming(c, dev).0.log, addr)
    {
      FormatRegsAreNoControls(addr);
      SetupQuiet(c2, dev, SETUP_ORDER, addr);
    }
    DepthReads(c2, StartStreaming(c, dev).0);
  }

  lemma ThreeWrites(log: seq<Write>, d: nat)
    ensures var log' := log + [Write(0x018c, 1, d), Write(0x018d, 1, d), Write(0x0309, 1, d)];
            forall addr :: FormatReg(addr) ==> LastVal(log', addr) == d
  {
    hide LastVal;
    var w1, w2, w3 := Write(0x018c, 1, d), Write(0x018d, 1, d), Write(0x0309, 1, d);
    assert log + [w1, w2, w3] == log + [w1] + [w2] + [w3];
    forall addr | FormatReg(addr)
      ensures LastVal(log + [w1] + [w2] + [w3], addr) == d
    {
      LastOfAppend(log, w1, addr);
      LastOfAppend(log + [w1], w2, addr);
      LastOfAppend(log + [w1] + [w2], w3, addr);
    }
  }

  /** A format change while streaming keeps the depth. */
  predicate KeepsDepth(c: Cam, op: Op) {
    op.Format? && c.streaming ==> AskedDepth(op.code) == Depth(c.code)
  }

  lemma UserKeepsDepth(c: Cam, dev: Bus, id: CtrlId, v: int)
    requires DepthCurrent(c)
    ensures DepthCurrent(UserSet(c, dev, id, v).0) && UserSet(c, dev, id, v).0.streaming == c.streaming
  {
    hide SetIfChanged, DepthCurrent, QuietAt, Depth;
    var w := Clamp(v, Get(c, id).min, Get(c, id).max);
    SetCtrlKeepsCore(c, dev, id, w);
    forall addr | FormatReg(addr)
      ensures QuietAt(c.log, SetIfChanged(c, dev, id, w).0.log, addr)
    {
      FormatRegsAreNoControls(addr);
      SetCtrlQuiet(c, dev, id, w, addr);
    }
    DepthReads(c, SetIfChanged(c, dev, id, w).0);
  }

  lemma StreamSetsDepth(c: Cam, dev: Bus, enable: bool, powered: bool)
    requires CodeInv(c) && (c.streaming ==> DepthCurrent(c))
    ensures var c' := SetStream(c, dev, enable, powered); c'.streaming ==> DepthCurrent(c')
  {
    hide StartStreaming, Depth, LastVal, Codes;
    var c1 := c.(usage := c.usage + 1);
    StartKeepsCore(c1, dev);
    if enable && !c.streaming && powered && StartStreaming(c1, dev).1 {
      StartSetsDepth(c1, dev);
    }
  }

  lemma DoKeepsDepth(c: Cam, dev: Bus, op: Op)
    requires CodeInv(c) && Possible(op) && (c.streaming ==> DepthCurrent(c)) && KeepsDepth(c, op)
    ensures var c' := Do(c, dev, op); c'.streaming ==> DepthCurrent(c')
  {
    hide SetActiveFormat, UserSet, SetStream, DepthCurrent, Codes, AskedDepth, Depth;
    match op {
      case Format(code, nearest) =>
        FormatStreams(c, dev, code, nearest);
        if c.streaming {
          FormatUpdatesDepthIff(c, dev, code, nearest);
        }
      case Control(id, v) =>
        UserStreams(c, dev, id, v);
        if c.streaming {
          UserKeepsDepth(c, dev, id, v);
        }
      case Stream(enable, powered) => StreamSetsDepth(c, dev, enable, powered);
      case Others(use) => OthersKeepDepth(c, use);
    }
  }

  lemma OthersKeepDepth(c: Cam, use: bool)
    ensures DepthCurrent(c.(othersUse := use)) <==> DepthCurrent(c)
  {
  }

  /**
    In every run, with any writes failing, the sensor streams at the depth of the code the driver
    reports, as long as no format change made while streaming asks for another depth.
   */
  lemma {:induction false} StreamingDepthIsCurrent(tr: seq<Cam>, ops: seq<Op>, dev: Bus, i: nat)
    requires Calls(tr, ops, dev) && i < |tr|
    requires forall k :: 0 <= k < i ==> KeepsDepth(tr[k], ops[k])
    ensures tr[i].streaming ==> DepthCurrent(tr[i])
    ensures Depth(FormatCode(tr[i], tr[i].code)) == Depth(tr[i].code)
  {
    hide Do, DepthCurrent, Good, KeepsDepth, StreamInv, FormatCode, Depth, Codes;
    RunIsGood(tr, ops, dev, i);
    GoodIs(tr[i], dev);
    FrameFormatAgrees(tr[i]);
    if i == 0 {
      InitialIsGood(dev);
    } else {
      RunIsGood(tr, ops, dev, i - 1);
      GoodIs(tr[i - 1], dev);
      StreamingDepthIsCurrent(tr, ops, dev, i - 1);
      DoKeepsDepth(tr[i - 1], dev, ops[i - 1]);
    }
  }
}
