/** What imx219_start_streaming writes, and what it leaves in MODE_SELECT. */
module Imx219Start {
  import opened Imx219Tables
  import opened Imx219Sensor
  import opened Imx219Theorems

  // ---------- The list of writes ----------

  lemma {:induction false} WriteRegsAppend(c: Cam, dev: Bus, a: seq<Write>, b: seq<Write>)
    ensures WriteRegs(c, dev, a + b) ==
      if WriteRegs(c, dev, a).1 then WriteRegs(WriteRegs(c, dev, a).0, dev, b) else WriteRegs(c, dev, a)
    decreases |a|
  {
    if a == [] {
      assert a + b == b;
    } else {
      assert (a + b)[1..] == a[1..] + b;
      WriteRegsAppend(WriteReg(c, dev, a[0]).0, dev, a[1..], b);
    }
  }

  const STREAM_ON := Write(REG_MODE_SELECT, 1, MODE_STREAMING)

  /** The writes that re-apply the controls, in order. */
  function SetupScript(c: Cam, ids: seq<CtrlId>): seq<Write> {
    if ids == [] then [] else CtrlWrite(c, ids[0], Get(c, ids[0]).val) + SetupScript(c, ids[1..])
  }

  /** The registers of the mode and the frame format, which come first. */
  function Boot(c: Cam): seq<Write>
    requires c.mode < 4
  {
    ModeRegs(c.mode) + FrameFormatRegs(c.code)
  }

  /** Every control once, then stream on. */
  function Tail(c: Cam): seq<Write> {
    SetupScript(c, SETUP_ORDER) + [STREAM_ON]
  }

  /** Everything imx219_start_streaming writes when nothing fails and no value needs clamping. */
  function Script(c: Cam): seq<Write>
    requires c.mode < 4
  {
    Boot(c) + Tail(c)
  }

  /** Re-applying vblank moves the exposure range first, which may attempt a write of its own. */
  function Reranged(c: Cam, dev: Bus): Cam {
    ModifyExposure(c, dev, Height(c) + c.vblank.val - 4)
  }

  /** Re-applying a control is its one write, for vblank after the exposure range has moved. */
  lemma SetCtrlIsWrite(c: Cam, dev: Bus, id: CtrlId)
    requires InUse(c) && Handled(id)
    ensures var c1 := if id.Vblank? then Reranged(c, dev) else c;
            var ws := CtrlWrite(c1, id, Get(c1, id).val);
            InUse(c1) && Get(c1, id).val == Get(c, id).val && |ws| == 1
            && SetCtrl(c, dev, id, Get(c, id).val) == WriteReg(c1, dev, ws[0])
  {
    hide ModifyExposure, CtrlWrite;
    var c1 := if id.Vblank? then Reranged(c, dev) else c;
    ModifyExposureFrame(c, dev, Height(c) + c.vblank.val - 4);
    OneWriteEach(c1, id, Get(c1, id).val);
  }

  lemma SetupScriptFrame(c: Cam, dev: Bus, w: Write, ids: seq<CtrlId>)
    ensures SetupScript(WriteReg(c, dev, w).0, ids) == SetupScript(c, ids)
  {
    hide SetupScript;
    ScriptIgnoresIo(c, WriteReg(c, dev, w).0, ids);
  }

  lemma WriteKeepsUse(c: Cam, dev: Bus, w: Write)
    ensures InUse(c) <==> InUse(WriteReg(c, dev, w).0)
  {
  }

  lemma {:induction false} SetupIsWriteRegs(c: Cam, dev: Bus, ids: seq<CtrlId>)
    requires InUse(c) && forall i :: 0 <= i < |ids| ==> Handled(ids[i]) && !ids[i].Vblank?
    ensures Setup(c, dev, ids) == WriteRegs(c, dev, SetupScript(c, ids))
    decreases |ids|
  {
    hide InUse, CtrlWrite, SetCtrl, Get;
    if ids != [] {
      SetCtrlIsWrite(c, dev, ids[0]);
      var ws := CtrlWrite(c, ids[0], Get(c, ids[0]).val);
      var c1 := WriteReg(c, dev, ws[0]).0;
      WriteKeepsUse(c, dev, ws[0]);
      SetupScriptFrame(c, dev, ws[0], ids[1..]);
      SetupIsWriteRegs(c1, dev, ids[1..]);
      assert (ws + SetupScript(c, ids[1..]))[1..] == SetupScript(c, ids[1..]);
    }
  }

  /** All controls: the exposure range moves, then one write each. */
  lemma SetupMovesThenWrites(c: Cam, dev: Bus)
    requires InUse(c)
    ensures Setup(c, dev, SETUP_ORDER) == WriteRegs(Reranged(c, dev), dev, SetupScript(Reranged(c, dev), SETUP_ORDER))
  {
    hide InUse, CtrlWrite, SetCtrl, Get, Reranged, Setup, SetupScript;
    var rest, c1 := SETUP_ORDER[1..], Reranged(c, dev);
    SetCtrlIsWrite(c, dev, Vblank);
    var w := CtrlWrite(c1, Vblank, Get(c1, Vblank).val)[0];
    var c2 := WriteReg(c1, dev, w).0;
    WriteKeepsUse(c1, dev, w);
    SetupScriptFrame(c1, dev, w, rest);
    SetupOrderHandled();
    SetupIsWriteRegs(c2, dev, rest);
    SetupHead(c, dev, SETUP_ORDER);
    ScriptHead(c1, SETUP_ORDER);
    var script := SetupScript(c1, SETUP_ORDER);
    assert script == [w] + SetupScript(c1, rest);
    assert script[1..] == SetupScript(c1, rest);
  }

  lemma SetupHead(c: Cam, dev: Bus, ids: seq<CtrlId>)
    requires ids != []
    ensures var (c1, ok) := SetCtrl(c, dev, ids[0], Get(c, ids[0]).val);
            Setup(c, dev, ids) == if ok then Setup(c1, dev, ids[1..]) else (c1, false)
  {
  }

  lemma ScriptHead(c: Cam, ids: seq<CtrlId>)
    requires ids != []
    ensures SetupScript(c, ids) == CtrlWrite(c, ids[0], Get(c, ids[0]).val) + SetupScript(c, ids[1..])
  {
  }

  lemma SetupOrderHandled()
    ensures forall i :: 0 <= i < |SETUP_ORDER| ==> Handled(SETUP_ORDER[i])
    ensures SETUP_ORDER[0] == Vblank && forall i :: 0 < i < |SETUP_ORDER| ==> !SETUP_ORDER[i].Vblank?
  {
  }

  /**
    From any state in use, starting a stream is: write the boot list; then let the exposure range
    follow vblank, whose own write may fail without notice; then write every control once in order
    and stream on. Each list is written up to its first failure, which ends the start.
   */
  lemma StartIsScript(c: Cam, dev: Bus)
    requires CodeInv(c) && InUse(c)
    ensures var r := WriteRegs(c, dev, Boot(c));
            StartStreaming(c, dev) ==
            if r.1 then WriteRegs(Reranged(r.0, dev), dev, Tail(Reranged(r.0, dev))) else r
  {
    hide InUse, ModeRegs, FrameFormatRegs, SetupScript, Setup, WriteRegs, WriteReg, Reranged, Codes;
    var a, b := ModeRegs(c.mode), FrameFormatRegs(c.code);
    FrameFormatAgrees(c);
    WriteRegsAppend(c, dev, a, b);
    var c1 := WriteRegs(c, dev, a).0;
    var c2 := WriteRegs(c1, dev, b).0;
    WriteRegsOnlyIo(c, dev, a);
    WriteRegsOnlyIo(c1, dev, b);
    OnlyIoChanged(c, c1);
    OnlyIoChanged(c, c2);
    SetupMovesThenWrites(c2, dev);
    var c3 := Reranged(c2, dev);
    WriteRegsAppend(c3, dev, SetupScript(c3, SETUP_ORDER), [STREAM_ON]);
    OneWrite(WriteRegs(c3, dev, SetupScript(c3, SETUP_ORDER)).0, dev, STREAM_ON);
  }

  lemma StartKeepsTiming(c: Cam, dev: Bus)
    requires Timing(c) && CodeInv(c) && InUse(c)
    ensures Timing(StartStreaming(c, dev).0)
  {
    hide Timing, InUse, Boot, Tail, StartStreaming, WriteRegs, Reranged, Codes;
    StartIsScript(c, dev);
    var c1 := WriteRegs(c, dev, Boot(c)).0;
    WriteRegsOnlyIo(c, dev, Boot(c));
    OnlyIoChanged(c, c1);
    TimedRangeStays(c1, dev);
    WriteRegsOnlyIo(c1, dev, Tail(c1));
    OnlyIoChanged(c1, WriteRegs(c1, dev, Tail(c1)).0);
  }

  lemma TimedRangeStays(c: Cam, dev: Bus)
    requires Timing(c)
    ensures Reranged(c, dev) == c
  {
    hide ModifyExposure;
    HeightIsTabled(c);
    ModifyExposureMoves(c, dev, Height(c) + c.vblank.val - 4);
  }

  // ---------- When the writes are a prefix of one list ----------

  /** What every reachable state has: a table mode and the floors of exposure and vblank. */
  ghost predicate FloorInv(c: Cam) {
    c.mode < 4 && c.exposure.min == EXPOSURE_MIN <= c.exposure.max && c.exposure.val >= EXPOSURE_MIN
    && c.vblank.min == VBLANK_MIN <= c.vblank.max && c.vblank.val >= VBLANK_MIN
  }

  /** The exposure value fits the frame length that vblank asks for. */
  predicate ExposureFits(c: Cam) {
    EXPOSURE_MIN <= c.exposure.val <= Height(c) + c.vblank.val - 4
  }

  /** With a fitting exposure the range moves without a write. */
  lemma FittingMovesQuietly(c: Cam, dev: Bus)
    requires FloorInv(c) && InUse(c) && ExposureFits(c)
    ensures var c1 := Reranged(c, dev);
            c1.sent == c.sent && c1.log == c.log && Tail(c1) == Tail(c)
  {
    hide Tail, ModifyExposure;
    HeightIsTabled(c);
    var max := Height(c) + c.vblank.val - 4;
    ModifyExposureSends(c, dev, max);
    FittingKeepsValue(c, dev, max);
    ModifyExposureFrame(c, dev, max);
    TailReadsValues(c, Reranged(c, dev));
  }

  lemma FittingKeepsValue(c: Cam, dev: Bus, max: int)
    requires c.exposure.min <= c.exposure.val <= max
    ensures ModifyExposure(c, dev, max).exposure.val == c.exposure.val
  {
  }

  lemma TailReadsValues(c: Cam, c': Cam)
    requires c'.mode == c.mode && c'.vblank == c.vblank && c'.exposure.val == c.exposure.val
    requires c'.hflip == c.hflip && c'.vflip == c.vflip && c'.plain == c.plain
    ensures Tail(c') == Tail(c)
  {
    hide SetupScript;
    SetupOrderHandled();
    ScriptReadsValues(c, c', SETUP_ORDER);
  }

  lemma {:induction false} ScriptReadsValues(c: Cam, c': Cam, ids: seq<CtrlId>)
    requires c'.mode == c.mode && c'.vblank == c.vblank && c'.exposure.val == c.exposure.val
    requires c'.hflip == c.hflip && c'.vflip == c.vflip && c'.plain == c.plain
    requires forall i :: 0 <= i < |ids| ==> Handled(ids[i])
    ensures SetupScript(c', ids) == SetupScript(c, ids)
  {
    hide CtrlWrite, Get;
    if ids != [] {
      WriteReadsValues(c, c', ids[0]);
      ScriptReadsValues(c, c', ids[1..]);
    }
  }

  lemma WriteReadsValues(c: Cam, c': Cam, id: CtrlId)
    requires c'.mode == c.mode && c'.vblank == c.vblank && c'.exposure.val == c.exposure.val
    requires c'.hflip == c.hflip && c'.vflip == c.vflip && c'.plain == c.plain && Handled(id)
    ensures CtrlWrite(c', id, Get(c', id).val) == CtrlWrite(c, id, Get(c, id).val)
  {
  }

  /**
    If the exposure fits the frame length, what reaches the sensor is a prefix of one list, for
    every failure point, and the start succeeds exactly if every write does.
   */
  lemma StartWritesPrefix(c: Cam, dev: Bus)
    requires CodeInv(c) && InUse(c) && FloorInv(c) && ExposureFits(c)
    ensures var k := Reached(dev, c.sent, |Script(c)|);
            StartStreaming(c, dev).0.log == c.log + Script(c)[..k]
            && StartStreaming(c, dev).0.sent == c.sent + k + (if k == |Script(c)| then 0 else 1)
            && (StartStreaming(c, dev).1 <==> k == |Script(c)|)
    ensures StartStreaming(c, dev).1 <==> AllOk(dev, c.sent, c.sent + |Script(c)|)
  {
    hide InUse, Boot, Tail, StartStreaming, WriteRegs, Reranged, Codes;
    StartIsScript(c, dev);
    WriteRegsAppend(c, dev, Boot(c), Tail(c));
    WriteRegsIsPrefix(c, dev, Script(c));
    var c1 := WriteRegs(c, dev, Boot(c)).0;
    WriteRegsOnlyIo(c, dev, Boot(c));
    OnlyIoChanged(c, c1);
    TailReadsValues(c, c1);
    FittingMovesQuietly(c1, dev);
    SameWrites(c1, Reranged(c1, dev), dev, Tail(c));
  }

  lemma SameWrites(c: Cam, c': Cam, dev: Bus, regs: seq<Write>)
    requires c'.sent == c.sent && c'.log == c.log
    ensures var r, r' := WriteRegs(c, dev, regs), WriteRegs(c', dev, regs);
            r'.0.log == r.0.log && r'.0.sent == r.0.sent && r'.1 == r.1
  {
    hide WriteRegs;
    WriteRegsIsPrefix(c, dev, regs);
    WriteRegsIsPrefix(c', dev, regs);
  }

  /** A start that reports success made no failing write on the way. */
  ghost predicate HonestStart(c: Cam, dev: Bus)
    requires c.mode < 4
  {
    StartStreaming(c, dev).1 ==> AllOk(dev, c.sent, StartStreaming(c, dev).0.sent)
  }

  /** A bus on which, from the state c on, just the write that clamps the exposure fails. */
  ghost predicate FailsClampOnly(c: Cam, dev: Bus)
    requires c.mode < 4
  {
    forall k :: c.sent <= k ==> (dev(k) <==> k != c.sent + |Boot(c)|)
  }

  /**
    Over all buses, a successful start means that every attempted write succeeded exactly if the
    exposure fits the frame length. Otherwise the clamping write may fail without ending the start.
   */
  lemma StartHonestIff(c: Cam)
    requires CodeInv(c) && InUse(c) && FloorInv(c)
    ensures (forall dev: Bus :: HonestStart(c, dev)) <==> ExposureFits(c)
  {
    if ExposureFits(c) {
      forall dev: Bus
        ensures HonestStart(c, dev)
      {
        StartWritesPrefix(c, dev);
      }
    } else {
      var n := c.sent + |Boot(c)|;
      var dev: Bus := (k: nat) => k != n;
      StartHidesFailure(c, dev);
      assert !HonestStart(c, dev);
    }
  }

  /** With an exposure that does not fit, this one failure goes unnoticed and the sensor streams. */
  lemma StartHidesFailure(c: Cam, dev: Bus)
    requires CodeInv(c) && InUse(c) && FloorInv(c) && !ExposureFits(c) && FailsClampOnly(c, dev)
    ensures StartStreaming(c, dev).1 && StartStreaming(c, dev).0.sent > c.sent + |Boot(c)| && !dev(c.sent + |Boot(c)|)
    ensures LastVal(StartStreaming(c, dev).0.log, REG_MODE_SELECT) == MODE_STREAMING
  {
    hide InUse, FloorInv, ExposureFits, Boot, Tail, StartStreaming, WriteRegs, Codes, Reranged, LastVal;
    StartSelectsMode(c, dev);
    StartIsScript(c, dev);
    AllWritten(c, dev, Boot(c));
    var c1 := WriteRegs(c, dev, Boot(c)).0;
    OnlyIoChanged(c, c1);
    ClampAttempted(c1, dev);
    var c2 := Reranged(c1, dev);
    AllWritten(c2, dev, Tail(c2));
  }

  lemma ClampAttempted(c: Cam, dev: Bus)
    requires FloorInv(c) && InUse(c) && !ExposureFits(c)
    ensures Reranged(c, dev).sent == c.sent + 1
  {
    hide ModifyExposure;
    HeightIsTabled(c);
    ModifyExposureSends(c, dev, Height(c) + c.vblank.val - 4);
  }

  lemma AllWritten(c: Cam, dev: Bus, regs: seq<Write>)
    requires AllOk(dev, c.sent, c.sent + |regs|)
    ensures var r := WriteRegs(c, dev, regs);
            r.1 && r.0.sent == c.sent + |regs| && r.0 == c.(sent := r.0.sent, log := r.0.log)
  {
    hide WriteRegs;
    WriteRegsIsPrefix(c, dev, regs);
    AllReached(dev, c.sent, |regs|);
  }

  lemma AllReached(dev: Bus, sent: nat, n: nat)
    requires AllOk(dev, sent, sent + n)
    ensures Reached(dev, sent, n) == n
  {
  }

  lemma WriteRegsOnlyIo(c: Cam, dev: Bus, regs: seq<Write>)
    ensures var c' := WriteRegs(c, dev, regs).0; c' == c.(sent := c'.sent, log := c'.log)
  {
    hide WriteRegs;
    WriteRegsIsPrefix(c, dev, regs);
  }

  lemma OneWrite(c: Cam, dev: Bus, w: Write)
    ensures WriteRegs(c, dev, [w]) == WriteReg(c, dev, w)
  {
  }

  lemma {:induction false} ScriptIgnoresIo(c: Cam, c': Cam, ids: seq<CtrlId>)
    requires c' == c.(sent := c'.sent, log := c'.log)
    ensures SetupScript(c', ids) == SetupScript(c, ids)
  {
    hide CtrlWrite, Get;
    if ids != [] {
      ControlIgnoresIo(c, c', ids[0], Get(c, ids[0]).val);
      ScriptIgnoresIo(c, c', ids[1..]);
    }
  }

  lemma ControlIgnoresIo(c: Cam, c': Cam, id: CtrlId, v: int)
    requires c' == c.(sent := c'.sent, log := c'.log)
    ensures Get(c', id) == Get(c, id) && CtrlWrite(c', id, v) == CtrlWrite(c, id, v)
  {
  }

  lemma OnlyIoChanged(c: Cam, c': Cam)
    requires c' == c.(sent := c'.sent, log := c'.log)
    ensures (Timing(c') <==> Timing(c)) && (InUse(c') <==> InUse(c)) && (FloorInv(c') <==> FloorInv(c))
    ensures ExposureFits(c') <==> ExposureFits(c)
    ensures Height(c') == Height(c)
  {
  }

  // ---------- MODE_SELECT ----------

  /** The value last written to a register; -1 if none was. */
  function LastVal(log: seq<Write>, addr: nat): int {
    if log == [] then -1
    else if log[|log| - 1].addr == addr then log[|log| - 1].val
    else LastVal(log[..|log| - 1], addr)
  }

  lemma LastOfAppend(log: seq<Write>, w: Write, addr: nat)
    ensures LastVal(log + [w], addr) == if w.addr == addr then w.val else LastVal(log, addr)
  {
    assert (log + [w])[..|log|] == log;
  }

  /** The log only grew, and not by a write to `addr`. */
  ghost predicate QuietAt(log: seq<Write>, log': seq<Write>, addr: nat) {
    log <= log' && forall i :: |log| <= i < |log'| ==> log'[i].addr != addr
  }

  /** No control is written to this register. */
  predicate NoControl(addr: nat) {
    addr != 0x0160 && addr != 0x015a && addr != 0x0172 && forall k :: 0 <= k < |PLAIN_REGS| ==> PLAIN_REGS[k].0 != addr
  }

  lemma {:induction false} QuietKeepsLast(log: seq<Write>, log': seq<Write>, addr: nat)
    requires QuietAt(log, log', addr)
    ensures LastVal(log', addr) == LastVal(log, addr)
    decreases |log'|
  {
    if |log'| > |log| {
      QuietKeepsLast(log, log'[..|log'| - 1], addr);
    } else {
      assert log' == log;
    }
  }

  lemma ApplyQuiet(c: Cam, dev: Bus, id: CtrlId, v: int, addr: nat)
    requires NoControl(addr)
    ensures QuietAt(c.log, ApplyCtrl(c, dev, id, v).0.log, addr)
  {
    hide CtrlWrite;
    WritesControl(c, id, v, addr);
  }

  lemma ExposureQuiet(c: Cam, dev: Bus, max: int, addr: nat)
    requires NoControl(addr)
    ensures QuietAt(c.log, ModifyExposure(c, dev, max).log, addr)
  {
    hide ApplyCtrl, NoControl;
    ApplyQuiet(c.(exposure := Ctrl(c.exposure.min, max, Lesser(max, EXPOSURE_DEFAULT), c.exposure.val)),
               dev, Exposure, Clamp(c.exposure.val, c.exposure.min, max), addr);
  }

  lemma WritesControl(c: Cam, id: CtrlId, v: int, addr: nat)
    requires NoControl(addr)
    ensures forall i :: 0 <= i < |CtrlWrite(c, id, v)| ==> CtrlWrite(c, id, v)[i].addr != addr
  {
  }

  lemma SetCtrlQuiet(c: Cam, dev: Bus, id: CtrlId, v: int, addr: nat)
    requires NoControl(addr)
    ensures QuietAt(c.log, SetCtrl(c, dev, id, v).0.log, addr)
    ensures QuietAt(c.log, SetIfChanged(c, dev, id, v).0.log, addr)
  {
    hide ApplyCtrl, ModifyExposure, NoControl;
    ExposureQuiet(c, dev, Height(c) + v - 4, addr);
    ApplyQuiet(if id.Vblank? then ModifyExposure(c, dev, Height(c) + v - 4) else c, dev, id, v, addr);
  }

  lemma {:induction false} SetupQuiet(c: Cam, dev: Bus, ids: seq<CtrlId>, addr: nat)
    requires NoControl(addr)
    ensures QuietAt(c.log, Setup(c, dev, ids).0.log, addr)
    decreases |ids|
  {
    hide SetCtrl, Get, NoControl;
    if ids != [] {
      SetCtrlQuiet(c, dev, ids[0], Get(c, ids[0]).val, addr);
      SetupQuiet(SetCtrl(c, dev, ids[0], Get(c, ids[0]).val).0, dev, ids[1..], addr);
    }
  }

  /** What the first phase leaves: nothing written, or standby. */
  lemma BootSelectsStandby(c: Cam, dev: Bus)
    requires c.mode < 4
    ensures var (c1, ok) := WriteRegs(c, dev, ModeRegs(c.mode));
            && c.log <= c1.log && (ok ==> c1.log != c.log) && c1.code == c.code
            && (c1.log != c.log ==> LastVal(c1.log, REG_MODE_SELECT) == MODE_STANDBY)
  {
    hide ModeRegs, WriteRegs, LastVal;
    var regs := ModeRegs(c.mode);
    WriteRegsIsPrefix(c, dev, regs);
    if Reached(dev, c.sent, |regs|) > 0 {
      StandbyPrefix(c.log, regs, Reached(dev, c.sent, |regs|));
    }
  }

  /** The phases in between do not touch MODE_SELECT. */
  lemma MiddleIsQuiet(c1: Cam, dev: Bus)
    ensures QuietAt(c1.log, SetFramefmt(c1, dev).0.log, REG_MODE_SELECT)
    ensures QuietAt(c1.log, Setup(SetFramefmt(c1, dev).0, dev, SETUP_ORDER).0.log, REG_MODE_SELECT)
  {
    hide Setup, SetFramefmt;
    FormatRegsQuiet(c1, dev);
    SetupQuiet(SetFramefmt(c1, dev).0, dev, SETUP_ORDER, REG_MODE_SELECT);
  }

  /**
    From any state, for any failure: once a single write has got through, the sensor is streaming
    if the start reports success and in standby otherwise.
   */
  lemma StartSelectsMode(c: Cam, dev: Bus)
    requires c.mode < 4
    ensures c.log <= StartStreaming(c, dev).0.log
    ensures StartStreaming(c, dev).1 ==> LastVal(StartStreaming(c, dev).0.log, REG_MODE_SELECT) == MODE_STREAMING
    ensures !StartStreaming(c, dev).1 && StartStreaming(c, dev).0.log != c.log ==>
      LastVal(StartStreaming(c, dev).0.log, REG_MODE_SELECT) == MODE_STANDBY
  {
    hide ModeRegs, SetFramefmt, WriteRegs, Setup, LastVal;
    BootSelectsStandby(c, dev);
    var (c1, ok1) := WriteRegs(c, dev, ModeRegs(c.mode));
    if ok1 {
      MiddleIsQuiet(c1, dev);
      var (c2, ok2) := SetFramefmt(c1, dev);
      var c3 := Setup(c2, dev, SETUP_ORDER).0;
      QuietKeepsLast(c1.log, c2.log, REG_MODE_SELECT);
      QuietKeepsLast(c1.log, c3.log, REG_MODE_SELECT);
      LastOfAppend(c3.log, STREAM_ON, REG_MODE_SELECT);
    }
  }

  lemma StandbyPrefix(log: seq<Write>, regs: seq<Write>, k: nat)
    requires StandbyFirst(regs) && 1 <= k <= |regs|
    ensures LastVal(log + regs[..k], REG_MODE_SELECT) == MODE_STANDBY
  {
    LastOfAppend(log, regs[0], REG_MODE_SELECT);
    assert log + regs[..k] == log + [regs[0]] + regs[1..k];
    QuietKeepsLast(log + [regs[0]], log + regs[..k], REG_MODE_SELECT);
  }

  lemma FormatRegsQuiet(c: Cam, dev: Bus)
    ensures QuietAt(c.log, SetFramefmt(c, dev).0.log, REG_MODE_SELECT)
  {
    WriteRegsIsPrefix(c, dev, FrameFormatRegs(c.code));
    hide WriteRegs, Depth;
  }
}
