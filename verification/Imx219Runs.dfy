/** What holds of the IMX219 driver over every run. */
module Imx219Runs {
  import opened Imx219Tables
  import opened Imx219Sensor
  import opened Imx219Theorems
  import opened Imx219Start

  /** One call or environment step after another, from the state probe leaves. */
  ghost predicate Calls(tr: seq<Cam>, ops: seq<Op>, dev: Bus) {
    && |tr| == |ops| + 1 && tr[0] == Initial()
    && (forall i :: 0 <= i < |ops| ==> tr[i].mode < 4 && Possible(ops[i]) && tr[i + 1] == Do(tr[i], dev, ops[i]))
  }

  ghost predicate Good(c: Cam, dev: Bus) {
    CodeInv(c) && StreamInv(c) && FloorInv(c) && (AllOk(dev, 0, c.sent) ==> Timing(c))
  }

  lemma DoKeepsGood(c: Cam, dev: Bus, op: Op)
    requires Good(c, dev) && Possible(op)
    ensures Good(Do(c, dev, op), dev)
  {
    hide Do, Timing, FloorInv, Codes;
    DoSends(c, dev, op);
    DoKeepsCode(c, dev, op);
    DoKeepsFloor(c, dev, op);
    if AllOk(dev, 0, Do(c, dev, op).sent) {
      DoKeepsTiming(c, dev, op);
    }
  }

  lemma DoKeepsCode(c: Cam, dev: Bus, op: Op)
    requires CodeInv(c) && StreamInv(c) && Possible(op)
    ensures CodeInv(Do(c, dev, op)) && StreamInv(Do(c, dev, op))
  {
    match op {
      case Format(code, nearest) =>
        hide FormatCode, CodeIndex, Retime, Codes;
        StoredCodeInTable(c, code);
        RetimeKeepsCore(c.(code := FormatCode(c, Codes()[CodeIndex(code)]), mode := nearest), dev);
      case Control(id, v) =>
        hide SetIfChanged, Codes;
        SetCtrlKeepsCore(c, dev, id, Clamp(v, Get(c, id).min, Get(c, id).max));
      case Stream(enable, powered) =>
        SetStreamBalanced(c, dev, enable, powered);
      case Others(use) =>
    }
  }

  lemma DoSends(c: Cam, dev: Bus, op: Op)
    requires c.mode < 4 && Possible(op)
    ensures Do(c, dev, op).sent >= c.sent
  {
    hide FormatCode, CodeIndex, Retime, Codes, SetIfChanged, StartStreaming, Get;
    match op {
      case Format(code, nearest) =>
        RetimeKeepsCore(c.(code := FormatCode(c, Codes()[CodeIndex(code)]), mode := nearest), dev);
      case Control(id, v) => SetCtrlKeepsCore(c, dev, id, Clamp(v, Get(c, id).min, Get(c, id).max));
      case Stream(enable, powered) => StartKeepsCore(c.(usage := c.usage + 1), dev);
      case Others(_) =>
    }
  }

  lemma RetimeKeepsCore(c1: Cam, dev: Bus)
    requires c1.mode < 4
    ensures SameCore(c1, Retime(c1, dev))
  {
    hide ModifyExposure, ModifyRange, SetIfChanged;
    var m := MODES[c1.mode];
    var c2 := ModifyRange(c1, dev, Vblank, VBLANK_MIN, VTS_MAX - m.height, m.vtsDef - m.height);
    var clamped := Clamp(m.vtsDef - m.height, c2.vblank.min, c2.vblank.max);
    var c3 := SetIfChanged(c2, dev, Vblank, clamped).0;
    var c4 := ModifyExposure(c3, dev, m.vtsDef - 4);
    ModifyRangeKeepsCore(c1, dev, Vblank, VBLANK_MIN, VTS_MAX - m.height, m.vtsDef - m.height);
    SetCtrlKeepsCore(c2, dev, Vblank, clamped);
    ExposureKeepsCore(c3, dev, m.vtsDef - 4);
    ModifyRangeKeepsCore(c4, dev, Hblank, PPL_DEFAULT - m.width, PPL_DEFAULT - m.width, PPL_DEFAULT - m.width);
  }

  /** Starting and stopping a stream does not disturb the timing. */
  lemma SetStreamFits(c: Cam, dev: Bus, enable: bool, powered: bool)
    requires CodeInv(c) && StreamInv(c)
    ensures SetStream(c, dev, enable, powered).sent >= c.sent
    ensures Timing(c) ==> Timing(SetStream(c, dev, enable, powered))
  {
    hide StartStreaming, Timing, Codes;
    var c1 := c.(usage := c.usage + 1);
    StartKeepsCore(c1, dev);
    TimingReadsControls(c, c1);
    var c' := SetStream(c, dev, enable, powered);
    if Timing(c) && enable && !c.streaming && powered {
      StartKeepsTiming(c1, dev);
      TimingReadsControls(StartStreaming(c1, dev).0, c');
    } else {
      TimingReadsControls(c, c');
    }
  }

  lemma TimingReadsControls(c: Cam, c': Cam)
    ensures CodeInv(c) && c'.mode == c.mode && c'.code == c.code ==> CodeInv(c')
    ensures c'.mode == c.mode && c'.vblank == c.vblank && c'.exposure == c.exposure && c'.hblank == c.hblank ==>
      (Timing(c') <==> Timing(c))
  {
  }

  lemma FormatStreams(c: Cam, dev: Bus, code: nat, nearest: nat)
    requires nearest < 4
    ensures SetActiveFormat(c, dev, code, nearest).streaming == c.streaming
  {
    hide FormatCode, CodeIndex, Retime, Codes;
    RetimeKeepsCore(c.(code := FormatCode(c, Codes()[CodeIndex(code)]), mode := nearest), dev);
  }

  lemma UserStreams(c: Cam, dev: Bus, id: CtrlId, v: int)
    ensures UserSet(c, dev, id, v).0.streaming == c.streaming
  {
    hide SetIfChanged, Get;
    SetCtrlKeepsCore(c, dev, id, Clamp(v, Get(c, id).min, Get(c, id).max));
  }

  // ---------- Floors ----------

  lemma ExposureFloorStays(c: Cam, dev: Bus, max: int)
    requires c.exposure.min == EXPOSURE_MIN <= c.exposure.max && c.exposure.val >= EXPOSURE_MIN
    ensures var x := ModifyExposure(c, dev, max).exposure; x.min == EXPOSURE_MIN <= x.max && x.val >= EXPOSURE_MIN
  {
    hide ApplyCtrl;
    ApplyFrame(c.(exposure := Ctrl(c.exposure.min, max, Lesser(max, EXPOSURE_DEFAULT), c.exposure.val)),
               dev, Exposure, Clamp(c.exposure.val, c.exposure.min, max));
  }

  lemma ExposureKeepsFloor(c: Cam, dev: Bus, max: int)
    requires FloorInv(c)
    ensures FloorInv(ModifyExposure(c, dev, max))
  {
    hide ModifyExposure;
    ExposureFloorStays(c, dev, max);
    ModifyExposureFrame(c, dev, max);
  }

  lemma SetKeepsFloor(c: Cam, dev: Bus, id: CtrlId, v: int)
    requires FloorInv(c) && (id.Vblank? ==> v >= VBLANK_MIN) && (id.Exposure? ==> v >= EXPOSURE_MIN)
    ensures FloorInv(SetIfChanged(c, dev, id, v).0)
  {
    hide ModifyExposure, ApplyCtrl;
    ExposureKeepsFloor(c, dev, Height(c) + v - 4);
    var c1 := if id.Vblank? then ModifyExposure(c, dev, Height(c) + v - 4) else c;
    ApplyFrame(c1, dev, id, v);
    ApplyKeepsCore(c1, dev, id, v, v);
  }

  lemma RetimeKeepsFloor(c1: Cam, dev: Bus)
    requires FloorInv(c1)
    ensures FloorInv(Retime(c1, dev))
  {
    hide ModifyExposure, SetIfChanged;
    HeightIsTabled(c1);
    var m := MODES[c1.mode];
    var def := m.vtsDef - m.height;
    var wide := c1.(vblank := Ctrl(VBLANK_MIN, VTS_MAX - m.height, def, c1.vblank.val));
    SetKeepsFloor(wide, dev, Vblank, Clamp(c1.vblank.val, VBLANK_MIN, VTS_MAX - m.height));
    var c2 := ModifyRange(c1, dev, Vblank, VBLANK_MIN, VTS_MAX - m.height, def);
    var clamped := Clamp(def, c2.vblank.min, c2.vblank.max);
    SetKeepsFloor(c2, dev, Vblank, clamped);
    var c3 := SetIfChanged(c2, dev, Vblank, clamped).0;
    ExposureKeepsFloor(c3, dev, m.vtsDef - 4);
    var c4, w := ModifyExposure(c3, dev, m.vtsDef - 4), PPL_DEFAULT - m.width;
    SetKeepsFloor(c4.(hblank := Ctrl(w, w, w, c4.hblank.val)), dev, Hblank, w);
  }

  lemma StartKeepsFloor(c: Cam, dev: Bus)
    requires FloorInv(c) && CodeInv(c) && InUse(c)
    ensures FloorInv(StartStreaming(c, dev).0)
  {
    hide FloorInv, InUse, Boot, Tail, StartStreaming, WriteRegs, Codes, ModifyExposure;
    StartIsScript(c, dev);
    var c1 := WriteRegs(c, dev, Boot(c)).0;
    WriteRegsOnlyIo(c, dev, Boot(c));
    OnlyIoChanged(c, c1);
    ExposureKeepsFloor(c1, dev, Height(c1) + c1.vblank.val - 4);
    var c2 := Reranged(c1, dev);
    WriteRegsOnlyIo(c2, dev, Tail(c2));
    OnlyIoChanged(c2, WriteRegs(c2, dev, Tail(c2)).0);
  }

  lemma DoKeepsFloor(c: Cam, dev: Bus, op: Op)
    requires CodeInv(c) && StreamInv(c) && FloorInv(c) && Possible(op)
    ensures FloorInv(Do(c, dev, op))
  {
    hide FormatCode, CodeIndex, Retime, Codes, SetIfChanged, StartStreaming;
    match op {
      case Format(code, nearest) =>
        RetimeKeepsFloor(c.(code := FormatCode(c, Codes()[CodeIndex(code)]), mode := nearest), dev);
      case Control(id, v) =>
        SetKeepsFloor(c, dev, id, Clamp(v, Get(c, id).min, Get(c, id).max));
      case Stream(enable, powered) =>
        StartKeepsFloor(c.(usage := c.usage + 1), dev);
      case Others(_) =>
    }
  }

  // ---------- Timing ----------

  /** The calls whose register writes the timing depends on. */
  predicate MovesFrame(op: Op) {
    op.Format? || (op.Control? && op.id.Vblank?)
  }

  lemma DoKeepsTiming(c: Cam, dev: Bus, op: Op)
    requires CodeInv(c) && StreamInv(c) && Timing(c) && Possible(op)
    requires MovesFrame(op) ==> AllOk(dev, c.sent, Do(c, dev, op).sent)
    ensures Timing(Do(c, dev, op))
  {
    hide Timing, Codes, SetActiveFormat, UserSet, SetStream;
    match op {
      case Format(code, nearest) => SetActiveFormatFits(c, dev, code, nearest);
      case Control(id, v) => UserSetFits(c, dev, id, v);
      case Stream(enable, powered) => SetStreamFits(c, dev, enable, powered);
      case Others(use) => TimingReadsControls(c, c.(othersUse := use));
    }
  }

  /**
    Every reachable state, over every sequence of calls and every pattern of bus failures: the
    stored code is in the table, PM count and grabs match, and the ranges keep their floors.
   */
  lemma {:induction false} RunIsGood(tr: seq<Cam>, ops: seq<Op>, dev: Bus, i: nat)
    requires Calls(tr, ops, dev) && i < |tr|
    ensures Good(tr[i], dev)
  {
    hide Good, Do;
    if i == 0 {
      InitialIsGood(dev);
    } else {
      RunIsGood(tr, ops, dev, i - 1);
      DoKeepsGood(tr[i - 1], dev, ops[i - 1]);
    }
  }

  lemma InitialIsGood(dev: Bus)
    ensures Good(Initial(), dev) && !Initial().streaming && Timing(Initial())
  {
  }

  lemma GoodIs(c: Cam, dev: Bus)
    requires Good(c, dev)
    ensures CodeInv(c) && StreamInv(c) && FloorInv(c)
  {
  }

  /**
    The timing holds in every run in which format and vblank changes get their writes through;
    writes of other controls, of starting and of stopping may fail.
   */
  lemma {:induction false} RunKeepsTiming(tr: seq<Cam>, ops: seq<Op>, dev: Bus, i: nat)
    requires Calls(tr, ops, dev) && i < |tr|
    requires forall k :: 0 <= k < i && MovesFrame(ops[k]) ==> AllOk(dev, tr[k].sent, tr[k + 1].sent)
    ensures Timing(tr[i])
  {
    hide Good, Do, Timing, CodeInv, StreamInv;
    if i == 0 {
      InitialIsGood(dev);
    } else {
      RunKeepsTiming(tr, ops, dev, i - 1);
      RunIsGood(tr, ops, dev, i - 1);
      GoodIs(tr[i - 1], dev);
      assert tr[i - 1 + 1] == Do(tr[i - 1], dev, ops[i - 1]);
      DoKeepsTiming(tr[i - 1], dev, ops[i - 1]);
    }
  }

  /** In every run, a start finds a state for which `StartHonestIff` and `StartWritesPrefix` tell what it writes. */
  lemma RunIsReadyToStart(tr: seq<Cam>, ops: seq<Op>, dev: Bus, i: nat)
    requires Calls(tr, ops, dev) && i < |tr|
    ensures var c := tr[i].(usage := tr[i].usage + 1);
            CodeInv(c) && InUse(c) && FloorInv(c)
  {
    hide Do, Codes;
    RunIsGood(tr, ops, dev, i);
  }

  // ---------- HBLANK ----------

  predicate HblankFits(c: Cam) { c.hblank.val + Width(c) == PPL_DEFAULT }

  /** A change to another mode while the sensor is in use. */
  predicate ChangesModeInUse(c: Cam, op: Op) {
    op.Format? && InUse(c) && op.nearest != c.mode
  }

  /** One call keeps hblank + width = 3448 exactly if it does not change the mode while the sensor is in use. */
  lemma DoKeepsHblankIff(c: Cam, dev: Bus, op: Op)
    requires CodeInv(c) && StreamInv(c) && HblankFits(c) && Possible(op)
    ensures HblankFits(Do(c, dev, op)) <==> !ChangesModeInUse(c, op)
  {
    hide SetActiveFormat, UserSet, SetStream, Codes;
    match op {
      case Format(code, nearest) => FormatHblankIff(c, dev, code, nearest);
      case Control(id, v) => UserKeepsHblank(c, dev, id, v);
      case Stream(enable, powered) => StreamKeepsBlanking(c, dev, enable, powered);
      case Others(use) =>
    }
  }

  lemma FormatHblankIff(c: Cam, dev: Bus, code: nat, nearest: nat)
    requires c.mode < 4 && nearest < 4 && HblankFits(c)
    ensures HblankFits(SetActiveFormat(c, dev, code, nearest)) <==> !InUse(c) || nearest == c.mode
  {
    hide FormatCode, CodeIndex, Codes, Retime;
    var c1 := c.(code := FormatCode(c, Codes()[CodeIndex(code)]), mode := nearest);
    RetimeKeepsCore(c1, dev);
    if SetActiveFormat(c, dev, code, nearest) != c {
      HblankFollowsWidthIff(c, dev, code, nearest);
    }
    WidthsDiffer(c.mode, nearest);
  }

  lemma WidthsDiffer(i: nat, j: nat)
    requires i < 4 && j < 4
    ensures MODES[i].width == MODES[j].width <==> i == j
  {
  }

  lemma UserKeepsHblank(c: Cam, dev: Bus, id: CtrlId, v: int)
    ensures var c' := UserSet(c, dev, id, v).0; c'.hblank == c.hblank && c'.mode == c.mode
  {
    hide SetIfChanged;
    var w := Clamp(v, Get(c, id).min, Get(c, id).max);
    SetCtrlKeepsCore(c, dev, id, w);
    VblankKeepsHblank(c, dev, w);
    if !id.Vblank? && !id.Hblank? {
      PlainControlFrame(c, dev, id, w);
    }
  }

  lemma StreamKeepsBlanking(c: Cam, dev: Bus, enable: bool, powered: bool)
    requires CodeInv(c) && StreamInv(c)
    ensures var c' := SetStream(c, dev, enable, powered);
            c'.hblank == c.hblank && c'.vblank == c.vblank && c'.mode == c.mode
  {
    hide StartStreaming, Codes;
    StartKeepsBlanking(c.(usage := c.usage + 1), dev);
  }

  lemma StartKeepsBlanking(c: Cam, dev: Bus)
    requires CodeInv(c) && InUse(c)
    ensures var c' := StartStreaming(c, dev).0; c'.hblank == c.hblank && c'.vblank == c.vblank && c'.mode == c.mode
  {
    hide InUse, Boot, Tail, StartStreaming, WriteRegs, Codes, ModifyExposure;
    StartIsScript(c, dev);
    var c1 := WriteRegs(c, dev, Boot(c)).0;
    WriteRegsOnlyIo(c, dev, Boot(c));
    ModifyExposureFrame(c1, dev, Height(c1) + c1.vblank.val - 4);
    var c2 := Reranged(c1, dev);
    WriteRegsOnlyIo(c2, dev, Tail(c2));
  }

  /**
    In every run that changes the mode only while the sensor is not in use, with any writes
    failing, hblank + width = 3448 in every state.
   */
  lemma {:induction false} RunKeepsHblank(tr: seq<Cam>, ops: seq<Op>, dev: Bus, i: nat)
    requires Calls(tr, ops, dev) && i < |tr|
    requires forall k :: 0 <= k < i ==> !ChangesModeInUse(tr[k], ops[k])
    ensures HblankFits(tr[i])
  {
    hide Good, Do, ChangesModeInUse, CodeInv, StreamInv;
    if i > 0 {
      RunKeepsHblank(tr, ops, dev, i - 1);
      RunIsGood(tr, ops, dev, i - 1);
      GoodIs(tr[i - 1], dev);
      DoKeepsHblankIff(tr[i - 1], dev, ops[i - 1]);
    }
  }

  // ---------- What setting a control does ----------

  /** The value in the range nearest to the one asked for. */
  predicate Nearest(x: Ctrl, v: int, w: int) {
    (v < x.min ==> w == x.min) && (x.min <= v <= x.max ==> w == v) && (x.min <= v && x.max < v ==> w == x.max)
  }

  /**
    A user's change is refused for HBLANK and for grabbed flips.  Otherwise the control takes the
    nearest value of its range if the call succeeds and keeps its value if it fails, and it can
    only fail in use.
   */
  lemma UserSetDoes(c: Cam, dev: Bus, id: CtrlId, v: int)
    requires Handled(id) && (id.Plain? ==> id.k < |c.plain|)
    ensures var (c', ok) := UserSet(c, dev, id, v);
            && (Grabbed(c, id) ==> !ok && c' == c)
            && (!Grabbed(c, id) && ok ==> Nearest(Get(c, id), v, Get(c', id).val))
            && (!ok ==> Get(c', id).val == Get(c, id).val)
            && (!Grabbed(c, id) && !InUse(c) ==> ok)
  {
    hide SetIfChanged, Get;
    SetTakes(c, dev, id, Clamp(v, Get(c, id).min, Get(c, id).max));
  }

  lemma SetTakes(c: Cam, dev: Bus, id: CtrlId, w: int)
    requires Handled(id) && (id.Plain? ==> id.k < |c.plain|)
    ensures var (c', ok) := SetIfChanged(c, dev, id, w);
            Get(c', id).val == (if ok then w else Get(c, id).val) && (!InUse(c) ==> ok)
  {
    hide ModifyExposure, ApplyCtrl, Get, Put;
    var max := Height(c) + w - 4;
    var c1 := if id.Vblank? then ModifyExposure(c, dev, max) else c;
    ModifyExposureFrame(c, dev, max);
    ApplyFrame(c1, dev, id, w);
    ApplySucceedsIff(c1, dev, id, w);
    var c2 := ApplyCtrl(c1, dev, id, w).0;
    SameControl(c, c1, id);
    SameControl(c1, c2, id);
    PutTakes(c2, id, w);
  }

  lemma SameControl(c: Cam, c1: Cam, id: CtrlId)
    requires c1.vblank == c.vblank && c1.hblank == c.hblank && c1.hflip == c.hflip && c1.vflip == c.vflip
             && c1.plain == c.plain
    ensures id.Exposure? || Get(c1, id) == Get(c, id)
    ensures c1.exposure == c.exposure ==> Get(c1, id) == Get(c, id)
  {
  }

  lemma PutTakes(c: Cam, id: CtrlId, v: int)
    requires id.Plain? ==> id.k < |c.plain|
    ensures Get(Put(c, id, Get(c, id).(val := v)), id).val == v
  {
  }

  lemma HblankIsReadOnly(c: Cam, dev: Bus, v: int)
    ensures UserSet(c, dev, Hblank, v) == (c, false)
  {
  }
}
