/** The output-size registers of the IMX219 against the mode. */
module Imx219Size {
  import opened Imx219Tables
  import opened Imx219Sensor
  import opened Imx219Theorems
  import opened Imx219Start
  import opened Imx219Runs
  import opened Imx219Depth

  predicate SizeReg(addr: nat) { 0x016c <= addr <= 0x016f }

  /** The registers hold this width and height, high byte first. */
  predicate SizeIs(log: seq<Write>, width: int, height: int) {
    256 * LastVal(log, 0x016c) + LastVal(log, 0x016d) == width
      && 256 * LastVal(log, 0x016e) + LastVal(log, 0x016f) == height
  }

  predicate SizeCurrent(c: Cam) { SizeIs(c.log, Width(c), Height(c)) }

  lemma LastAt(log: seq<Write>, k: nat, addr: nat)
    requires k < |log| && log[k].addr == addr && forall j :: k < j < |log| ==> log[j].addr != addr
    ensures LastVal(log, addr) == log[k].val
  {
    hide LastVal;
    assert log[..k + 1] == log[..k] + [log[k]];
    LastOfAppend(log[..k], log[k], addr);
    QuietKeepsLast(log[..k + 1], log, addr);
  }

  /** The four size registers stand at k and nowhere else in the list. */
  predicate SizedAt(regs: seq<Write>, k: nat, width: int, height: int) {
    && k + 3 < |regs|
    && regs[k].addr == 0x016c && regs[k + 1].addr == 0x016d && regs[k + 2].addr == 0x016e && regs[k + 3].addr == 0x016f
    && 256 * regs[k].val + regs[k + 1].val == width && 256 * regs[k + 2].val + regs[k + 3].val == height
    && forall j :: 0 <= j < |regs| && SizeReg(regs[j].addr) ==> k <= j <= k + 3
  }

  lemma SizedList(log: seq<Write>, regs: seq<Write>, k: nat, width: int, height: int)
    requires SizedAt(regs, k, width, height)
    ensures SizeIs(log + regs, width, height)
  {
    hide LastVal;
    var all, n := log + regs, |log| + k;
    assert forall j :: |log| <= j < |all| ==> all[j] == regs[j - |log|];
    LastAt(all, n, 0x016c);
    LastAt(all, n + 1, 0x016d);
    LastAt(all, n + 2, 0x016e);
    LastAt(all, n + 3, 0x016f);
  }

  lemma Sized3280x2464()
    ensures SizedAt(Mode3280x2464(), 19, 3280, 2464)
  {
  }

  lemma Sized1920x1080()
    ensures SizedAt(Mode1920x1080(), 21, 1920, 1080)
  {
  }

  lemma Sized1640x1232()
    ensures SizedAt(Mode1640x1232(), 19, 1640, 1232)
  {
  }

  lemma Sized640x480()
    ensures SizedAt(Mode640x480(), 21, 640, 480)
  {
  }

  /** Every mode list programs the size of its own mode. */
  lemma ModeListSetsSize(log: seq<Write>, mode: nat)
    requires mode < 4
    ensures SizeIs(log + ModeRegs(mode), MODES[mode].width, MODES[mode].height)
  {
    hide SizedAt, SizeIs, Mode3280x2464, Mode1920x1080, Mode1640x1232, Mode640x480;
    Sized3280x2464();
    Sized1920x1080();
    Sized1640x1232();
    Sized640x480();
    if mode == 0 {
      SizedList(log, ModeRegs(mode), 19, 3280, 2464);
    } else if mode == 1 {
      SizedList(log, ModeRegs(mode), 21, 1920, 1080);
    } else if mode == 2 {
      SizedList(log, ModeRegs(mode), 19, 1640, 1232);
    } else {
      SizedList(log, ModeRegs(mode), 21, 640, 480);
    }
  }

  lemma SizeRegsAreNoControls(addr: nat)
    requires SizeReg(addr)
    ensures NoControl(addr) && addr != REG_MODE_SELECT && !FormatReg(addr)
  {
  }

  lemma SizeReads(log: seq<Write>, log': seq<Write>, width: int, height: int)
    requires forall addr :: SizeReg(addr) ==> QuietAt(log, log', addr)
    ensures SizeIs(log', width, height) <==> SizeIs(log, width, height)
  {
    hide LastVal, QuietAt;
    assert SizeReg(0x016c) && SizeReg(0x016d) && SizeReg(0x016e) && SizeReg(0x016f);
    QuietKeepsLast(log, log', 0x016c);
    QuietKeepsLast(log, log', 0x016d);
    QuietKeepsLast(log, log', 0x016e);
    QuietKeepsLast(log, log', 0x016f);
  }

  /** After the mode list a start writes no size register. */
  lemma RestOfStartIsQuiet(c: Cam, dev: Bus, addr: nat)
    requires c.mode < 4 && StartStreaming(c, dev).1 && SizeReg(addr)
    ensures QuietAt(WriteRegs(c, dev, ModeRegs(c.mode)).0.log, StartStreaming(c, dev).0.log, addr)
  {
    hide ModeRegs, SetFramefmt, WriteRegs, Setup, QuietAt;
    SizeRegsAreNoControls(addr);
    var c1 := WriteRegs(c, dev, ModeRegs(c.mode)).0;
    var c2 := SetFramefmt(c1, dev).0;
    var c3 := Setup(c2, dev, SETUP_ORDER).0;
    FramefmtQuiet(c1, dev, addr);
    SetupQuiet(c2, dev, SETUP_ORDER, addr);
    QuietTwice(c1.log, c2.log, c3.log, addr);
    StreamOnQuiet(c3, dev, addr);
    QuietTwice(c1.log, c3.log, WriteReg(c3, dev, STREAM_ON).0.log, addr);
  }

  lemma FramefmtQuiet(c: Cam, dev: Bus, addr: nat)
    requires !FormatReg(addr)
    ensures QuietAt(c.log, SetFramefmt(c, dev).0.log, addr)
  {
    WriteRegsIsPrefix(c, dev, FrameFormatRegs(c.code));
    hide WriteRegs, Depth;
  }

  lemma StreamOnQuiet(c: Cam, dev: Bus, addr: nat)
    requires addr != REG_MODE_SELECT
    ensures QuietAt(c.log, WriteReg(c, dev, STREAM_ON).0.log, addr)
  {
  }

  /** A successful start programs the size of the mode, whatever was there before. */
  lemma StartSetsSize(c: Cam, dev: Bus)
    requires c.mode < 4 && StartStreaming(c, dev).1
    ensures SizeCurrent(StartStreaming(c, dev).0)
  {
    hide ModeRegs, SizeIs, StartStreaming, WriteRegs;
    StartWritesModeFirst(c, dev);
    StartKeepsCore(c, dev);
    WriteRegsIsPrefix(c, dev, ModeRegs(c.mode));
    var c1 := WriteRegs(c, dev, ModeRegs(c.mode)).0;
    assert ModeRegs(c.mode)[..|ModeRegs(c.mode)|] == ModeRegs(c.mode);
    ModeListSetsSize(c.log, c.mode);
    forall addr | SizeReg(addr)
      ensures QuietAt(c1.log, StartStreaming(c, dev).0.log, addr)
    {
      RestOfStartIsQuiet(c, dev, addr);
    }
    HeightIsTabled(c);
    SizeReads(c1.log, StartStreaming(c, dev).0.log, Width(c), Height(c));
  }

  lemma StartWritesModeFirst(c: Cam, dev: Bus)
    requires c.mode < 4 && StartStreaming(c, dev).1
    ensures WriteRegs(c, dev, ModeRegs(c.mode)).1
  {
    hide ModeRegs, SetFramefmt, WriteRegs, Setup;
  }

  /** A format change programs no size: the registers fit afterwards exactly if the mode is the old one. */
  lemma FormatUpdatesSizeIff(c: Cam, dev: Bus, code: nat, nearest: nat)
    requires c.mode < 4 && nearest < 4 && SizeCurrent(c)
    ensures SizeCurrent(SetActiveFormat(c, dev, code, nearest)) <==> nearest == c.mode
  {
    hide SetActiveFormat, QuietAt, LastVal;
    var c' := SetActiveFormat(c, dev, code, nearest);
    forall addr | SizeReg(addr)
      ensures QuietAt(c.log, c'.log, addr)
    {
      SizeRegsAreNoControls(addr);
      FormatWritesOnlyControls(c, dev, code, nearest, addr);
    }
    StoredMode(c, dev, code, nearest);
    HeightIsTabled(c);
    HeightIsTabled(c');
    WidthsDiffer(c.mode, nearest);
    SizeReads(c.log, c'.log, Width(c'), Height(c'));
  }

  lemma StoredMode(c: Cam, dev: Bus, code: nat, nearest: nat)
    requires c.mode < 4 && nearest < 4
    ensures SetActiveFormat(c, dev, code, nearest).mode == nearest
  {
    hide FormatCode, CodeIndex, Codes, Retime;
    RetimeKeepsCore(c.(code := FormatCode(c, Codes()[CodeIndex(code)]), mode := nearest), dev);
  }

  // ---------- Whole runs ----------

  /** A format change while streaming stays in the mode. */
  predicate KeepsMode(c: Cam, op: Op) { op.Format? && c.streaming ==> op.nearest == c.mode }

  lemma UserKeepsSize(c: Cam, dev: Bus, id: CtrlId, v: int)
    requires SizeCurrent(c)
    ensures SizeCurrent(UserSet(c, dev, id, v).0)
  {
    hide SetIfChanged, SizeIs, QuietAt;
    var w := Clamp(v, Get(c, id).min, Get(c, id).max);
    var c' := SetIfChanged(c, dev, id, w).0;
    SetCtrlKeepsCore(c, dev, id, w);
    forall addr | SizeReg(addr)
      ensures QuietAt(c.log, c'.log, addr)
    {
      SizeRegsAreNoControls(addr);
      SetCtrlQuiet(c, dev, id, w, addr);
    }
    SizeReads(c.log, c'.log, Width(c), Height(c));
  }

  lemma StreamSetsSize(c: Cam, dev: Bus, enable: bool, powered: bool)
    requires CodeInv(c) && (c.streaming ==> SizeCurrent(c))
    ensures var c' := SetStream(c, dev, enable, powered); c'.streaming ==> SizeCurrent(c')
  {
    hide StartStreaming, SizeIs, Codes;
    var c1 := c.(usage := c.usage + 1);
    StartKeepsCore(c1, dev);
    if enable && !c.streaming && powered && StartStreaming(c1, dev).1 {
      StartSetsSize(c1, dev);
    }
  }

  lemma DoKeepsSize(c: Cam, dev: Bus, op: Op)
    requires CodeInv(c) && Possible(op) && (c.streaming ==> SizeCurrent(c)) && KeepsMode(c, op)
    ensures var c' := Do(c, dev, op); c'.streaming ==> SizeCurrent(c')
  {
    hide SetActiveFormat, UserSet, SetStream, SizeIs, Codes;
    match op {
      case Format(code, nearest) =>
        FormatStreams(c, dev, code, nearest);
        if c.streaming {
          FormatUpdatesSizeIff(c, dev, code, nearest);
        }
      case Control(id, v) =>
        UserStreams(c, dev, id, v);
        if c.streaming {
          UserKeepsSize(c, dev, id, v);
        }
      case Stream(enable, powered) => StreamSetsSize(c, dev, enable, powered);
      case Others(use) =>
    }
  }

  /**
    In every run, with any writes failing, the sensor streams the size of its mode, unless the mode
    is changed while streaming.
   */
  lemma {:induction false} StreamingSizeIsCurrent(tr: seq<Cam>, ops: seq<Op>, dev: Bus, i: nat)
    requires Calls(tr, ops, dev) && i < |tr|
    requires forall k :: 0 <= k < i ==> KeepsMode(tr[k], ops[k])
    ensures tr[i].streaming ==> SizeCurrent(tr[i])
  {
    hide Do, SizeCurrent, Good, KeepsMode, StreamInv;
    if i == 0 {
      InitialIsGood(dev);
    } else {
      RunIsGood(tr, ops, dev, i - 1);
      GoodIs(tr[i - 1], dev);
      StreamingSizeIsCurrent(tr, ops, dev, i - 1);
      DoKeepsSize(tr[i - 1], dev, ops[i - 1]);
    }
  }
}
