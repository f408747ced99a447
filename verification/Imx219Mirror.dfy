/** While the IMX219 streams, its registers mirror the controls. */
module Imx219Mirror {
  import opened Imx219Tables
  import opened Imx219Sensor
  import opened Imx219Theorems
  import opened Imx219Start
  import opened Imx219Runs

  function CtrlReg(id: CtrlId): nat {
    match id
    case Vblank => 0x0160
    case Exposure => 0x015a
    case Hblank => 0
    case Hflip => 0x0172
    case Vflip => 0x0172
    case Plain(k) => if k < |PLAIN_REGS| then PLAIN_REGS[k].0 else 0
  }

  /** What the register of a control should hold. */
  function Wanted(c: Cam, id: CtrlId): int {
    match id
    case Vblank => Val(Height(c) + c.vblank.val)
    case Exposure => Val(c.exposure.val)
    case Hblank => 0
    case Hflip => Val(c.hflip.val + 2 * c.vflip.val)
    case Vflip => Val(c.hflip.val + 2 * c.vflip.val)
    case Plain(k) =>
      var v := Get(c, id).val;
      if k != 2 then Val(v) else if 0 <= v < |TEST_PATTERN_VAL| then TEST_PATTERN_VAL[v] else 0
  }

  /** The control's register holds the value the control shows. */
  predicate MirrorAt(c: Cam, id: CtrlId) {
    LastVal(c.log, CtrlReg(id)) == Wanted(c, id)
  }

  ghost predicate Mirror(c: Cam) {
    forall id :: Handled(id) ==> MirrorAt(c, id)
  }

  predicate IsFlip(id: CtrlId) { id.Hflip? || id.Vflip? }

  lemma RegsDistinct(x: CtrlId, y: CtrlId)
    requires Handled(x) && Handled(y) && CtrlReg(x) == CtrlReg(y)
    ensures x == y || (IsFlip(x) && IsFlip(y))
  {
  }

  lemma OwnWrite(c: Cam, id: CtrlId)
    requires Handled(id)
    ensures var ws := CtrlWrite(c, id, Get(c, id).val);
            |ws| == 1 && ws[0].addr == CtrlReg(id) && ws[0].val == Wanted(c, id)
  {
  }

  // ---------- Single changes ----------

  lemma WantedReads(c: Cam, c': Cam, id: CtrlId)
    requires Handled(id) && (id.Vblank? ==> Height(c') == Height(c)) && Get(c', id).val == Get(c, id).val
    requires IsFlip(id) ==> c'.hflip.val == c.hflip.val && c'.vflip.val == c.vflip.val
    ensures Wanted(c', id) == Wanted(c, id)
  {
  }

  /** The controls other than `id` show what they showed. */
  ghost predicate OthersSame(c: Cam, c': Cam, id: CtrlId) {
    c'.hflip == c.hflip && c'.vflip == c.vflip && forall x :: Handled(x) && x != id ==> Get(c', x).val == Get(c, x).val
  }

  /** One control takes a value that its write has just put into its register; the others are undisturbed. */
  lemma MirrorMoves(c: Cam, c': Cam, id: CtrlId, x: CtrlId)
    requires Handled(id) && !IsFlip(id) && Handled(x) && c'.mode == c.mode && OthersSame(c, c', id)
    requires c'.log == c.log + [CtrlWrite(c', id, Get(c', id).val)[0]]
    ensures x == id || MirrorAt(c, x) ==> MirrorAt(c', x)
  {
    hide LastVal, CtrlReg, Wanted, CtrlWrite, Get;
    OwnWrite(c', id);
    LastOfAppend(c.log, CtrlWrite(c', id, Get(c', id).val)[0], CtrlReg(x));
    if x != id {
      if CtrlReg(x) == CtrlReg(id) {
        RegsDistinct(x, id);
      }
      WantedReads(c, c', x);
    }
  }

  // ---------- Controls set while the sensor is in use ----------

  lemma WriteIgnoresValue(c: Cam, c': Cam, id: CtrlId, v: int)
    requires c'.mode == c.mode && !IsFlip(id)
    ensures CtrlWrite(c', id, v) == CtrlWrite(c, id, v)
  {
  }

  predicate Stored(c: Cam, id: CtrlId) {
    Handled(id) && !IsFlip(id) && (id.Plain? ==> id.k < |c.plain|)
  }

  /** Applying a value in use and committing it on success: the value and the register move together or not at all. */
  lemma CommitMirrors(c: Cam, dev: Bus, id: CtrlId, v: int, x: CtrlId)
    requires InUse(c) && Stored(c, id) && Handled(x)
    ensures var c' := Commit(ApplyCtrl(c, dev, id, v), id, v);
            (MirrorAt(c, x) ==> MirrorAt(c', x)) && (dev(c.sent) ==> MirrorAt(c', id))
  {
    hide MirrorAt, CtrlWrite, ApplyCtrl, Put, Get;
    AppliedIs(c, dev, id, v);
    var c' := Commit(ApplyCtrl(c, dev, id, v), id, v);
    if dev(c.sent) {
      var c1 := c.(sent := c.sent + 1, log := c.log + [CtrlWrite(c, id, v)[0]]);
      PutReads(c1, id, v);
      SameButIo(c, c1);
      WriteIgnoresValue(c, c', id, v);
      MirrorMoves(c, c', id, x);
      MirrorMoves(c, c', id, id);
    } else {
      SameButIo(c, c');
      MirrorReads(c, c', x);
    }
  }

  lemma AppliedIs(c: Cam, dev: Bus, id: CtrlId, v: int)
    requires InUse(c) && Handled(id)
    ensures |CtrlWrite(c, id, v)| == 1
    ensures ApplyCtrl(c, dev, id, v) ==
            if dev(c.sent) then (c.(sent := c.sent + 1, log := c.log + [CtrlWrite(c, id, v)[0]]), true)
            else (c.(sent := c.sent + 1), false)
  {
    hide CtrlWrite;
    OneWriteEach(c, id, v);
  }

  lemma SameButIo(c: Cam, c1: Cam)
    requires c1 == c.(sent := c1.sent, log := c1.log)
    ensures forall x :: Get(c1, x) == Get(c, x)
  {
  }

  lemma PutReads(c: Cam, id: CtrlId, v: int)
    requires Stored(c, id)
    ensures var c' := Put(c, id, Get(c, id).(val := v));
            Get(c', id).val == v && OthersSame(c, c', id) && c'.log == c.log && c'.mode == c.mode
  {
  }

  /** Nothing written, and nothing changed that the register of x depends on. */
  lemma MirrorReads(c: Cam, c': Cam, x: CtrlId)
    requires Handled(x) && c'.log == c.log && (x.Vblank? ==> Height(c') == Height(c)) && Get(c', x).val == Get(c, x).val
    requires c'.hflip == c.hflip && c'.vflip == c.vflip
    ensures MirrorAt(c', x) <==> MirrorAt(c, x)
  {
    hide LastVal, CtrlReg, Wanted;
    WantedReads(c, c', x);
  }

  lemma ExposureMirrors(c: Cam, dev: Bus, max: int, x: CtrlId)
    requires InUse(c) && Handled(x) && MirrorAt(c, x)
    ensures MirrorAt(ModifyExposure(c, dev, max), x)
  {
    hide MirrorAt, ApplyCtrl, Commit;
    var c1 := c.(exposure := Ctrl(c.exposure.min, max, Lesser(max, EXPOSURE_DEFAULT), c.exposure.val));
    MirrorReads(c, c1, x);
    CommitMirrors(c1, dev, Exposure, Clamp(c.exposure.val, c.exposure.min, max), x);
  }

  /** Setting a control in use, whatever the bus does, leaves every register as right as it was. */
  lemma SetMirrors(c: Cam, dev: Bus, id: CtrlId, v: int, x: CtrlId)
    requires InUse(c) && Stored(c, id) && Handled(x) && MirrorAt(c, x)
    ensures MirrorAt(SetIfChanged(c, dev, id, v).0, x)
  {
    hide MirrorAt, ModifyExposure, ApplyCtrl, Commit;
    var max := Height(c) + v - 4;
    var c1 := if id.Vblank? then ModifyExposure(c, dev, max) else c;
    ModifyExposureFrame(c, dev, max);
    ExposureMirrors(c, dev, max, x);
    CommitMirrors(c1, dev, id, v, x);
  }

  lemma AppliedOnce(c: Cam, dev: Bus, id: CtrlId, v: int)
    requires InUse(c) && Handled(id)
    ensures ApplyCtrl(c, dev, id, v).0.sent == c.sent + 1
  {
    hide CtrlWrite;
    OneWriteEach(c, id, v);
  }

  /** A vblank that does change in use ends up in its register, if the writes succeed, whatever was there before. */
  lemma VblankRewrites(c: Cam, dev: Bus, v: int)
    requires InUse(c) && v != c.vblank.val && AllOk(dev, c.sent, SetIfChanged(c, dev, Vblank, v).0.sent)
    ensures var c' := SetIfChanged(c, dev, Vblank, v).0;
            MirrorAt(c', Vblank) && c'.vblank == c.vblank.(val := v) && SameCore(c, c')
  {
    hide MirrorAt, ModifyExposure, ApplyCtrl;
    var max := Height(c) + v - 4;
    var c1 := ModifyExposure(c, dev, max);
    ModifyExposureFrame(c, dev, max);
    AppliedOnce(c1, dev, Vblank, v);
    ApplyFrame(c1, dev, Vblank, v);
    ApplyKeepsCore(c1, dev, Vblank, v, v);
    ApplySucceedsIff(c1, dev, Vblank, v);
    CommitMirrors(c1, dev, Vblank, v, Vblank);
  }

  /** A user's change while streaming, with any writes failing, keeps every register in step with its control. */
  lemma UserSetMirrors(c: Cam, dev: Bus, id: CtrlId, v: int)
    requires Mirror(c) && StreamInv(c) && c.streaming
    ensures Mirror(UserSet(c, dev, id, v).0)
  {
    hide MirrorAt, SetIfChanged;
    var w := Clamp(v, Get(c, id).min, Get(c, id).max);
    if Stored(c, id) {
      forall x | Handled(x)
        ensures MirrorAt(SetIfChanged(c, dev, id, w).0, x)
      {
        SetMirrors(c, dev, id, w, x);
      }
    } else if id.Plain? && id.k >= |c.plain| {
      NothingToSet(c, dev, id);
    } else if id.Plain? {
      UnhandledIsRefused(c, dev, id, w);
    }
  }

  lemma UnhandledIsRefused(c: Cam, dev: Bus, id: CtrlId, v: int)
    requires id.Plain? && !Handled(id) && InUse(c)
    ensures SetIfChanged(c, dev, id, v).0 == c
  {
  }

  lemma NothingToSet(c: Cam, dev: Bus, id: CtrlId)
    requires id.Plain? && id.k >= |c.plain|
    ensures SetIfChanged(c, dev, id, 0).0 == c
  {
  }

  // ---------- Starting a stream ----------

  lemma {:induction false} ScriptMirrors(c: Cam, log: seq<Write>, ids: seq<CtrlId>, id: CtrlId)
    requires id in ids && forall i :: 0 <= i < |ids| ==> Handled(ids[i])
    ensures LastVal(log + SetupScript(c, ids), CtrlReg(id)) == Wanted(c, id)
    decreases |ids|
  {
    hide LastVal, CtrlReg, Wanted, CtrlWrite, Get;
    var n := |ids| - 1;
    var init, last := ids[..n], ids[n];
    ScriptSnoc(c, ids);
    OwnWrite(c, last);
    var w := CtrlWrite(c, last, Get(c, last).val)[0];
    var script := SetupScript(c, init);
    assert log + SetupScript(c, ids) == log + script + [w];
    LastOfAppend(log + script, w, CtrlReg(id));
    if CtrlReg(id) == CtrlReg(last) {
      RegsDistinct(id, last);
      FlipsAgree(c, id, last);
    } else {
      assert id in init;
      ScriptMirrors(c, log, init, id);
    }
  }

  lemma FlipsAgree(c: Cam, x: CtrlId, y: CtrlId)
    requires x == y || (IsFlip(x) && IsFlip(y))
    ensures Wanted(c, x) == Wanted(c, y)
  {
  }

  lemma {:induction false} ScriptSnoc(c: Cam, ids: seq<CtrlId>)
    requires ids != [] && forall i :: 0 <= i < |ids| ==> Handled(ids[i])
    ensures var last := ids[|ids| - 1];
            |CtrlWrite(c, last, Get(c, last).val)| == 1
            && SetupScript(c, ids) == SetupScript(c, ids[..|ids| - 1]) + [CtrlWrite(c, last, Get(c, last).val)[0]]
    decreases |ids|
  {
    hide CtrlWrite, Get;
    var n := |ids| - 1;
    OneWriteEach(c, ids[n], Get(c, ids[n]).val);
    var w := CtrlWrite(c, ids[n], Get(c, ids[n]).val);
    if n > 0 {
      ScriptSnoc(c, ids[1..]);
      assert ids[1..][..n - 1] == ids[..n][1..];
      assert ids[..n][0] == ids[0];
    } else {
      assert ids[..n] == [] && ids[1..] == [];
      assert SetupScript(c, ids[1..]) == [];
    }
    assert w == [w[0]];
  }

  lemma SetupOrderIsAll(id: CtrlId)
    requires Handled(id)
    ensures id in SETUP_ORDER && CtrlReg(id) != REG_MODE_SELECT
  {
    match id {
      case Vblank => assert SETUP_ORDER[0] == id;
      case Exposure => assert SETUP_ORDER[1] == id;
      case Hflip => assert SETUP_ORDER[4] == id;
      case Vflip => assert SETUP_ORDER[5] == id;
      case Plain(k) => assert SETUP_ORDER[[2, 3, 6, 7, 8, 9, 10][k]] == id;
    }
  }

  /**
    A successful start, from any state in use and whatever was written before, leaves every control
    in its register.
   */
  lemma StartMirrors(c: Cam, dev: Bus)
    requires CodeInv(c) && InUse(c) && StartStreaming(c, dev).1
    ensures Mirror(StartStreaming(c, dev).0)
  {
    hide InUse, StartStreaming, WriteRegs, Boot, Reranged, SetupScript, Wanted, CtrlReg, LastVal, Handled, Codes;
    StartIsScript(c, dev);
    var c1 := Reranged(WriteRegs(c, dev, Boot(c)).0, dev);
    var c', setup := StartStreaming(c, dev).0, SetupScript(c1, SETUP_ORDER);
    WriteRegsOnlyIo(c1, dev, Tail(c1));
    WriteRegsIsPrefix(c1, dev, Tail(c1));
    assert Tail(c1)[..|Tail(c1)|] == Tail(c1);
    assert c'.log == c1.log + setup + [STREAM_ON];
    SetupOrderHandled();
    forall id | Handled(id)
      ensures MirrorAt(c', id)
    {
      SetupOrderIsAll(id);
      LastOfAppend(c1.log + setup, STREAM_ON, CtrlReg(id));
      ScriptMirrors(c1, c1.log, SETUP_ORDER, id);
      WantedIgnoresIo(c1, c', id);
    }
  }

  lemma WantedIgnoresIo(c: Cam, c': Cam, id: CtrlId)
    requires c'.mode == c.mode && c'.vblank == c.vblank && c'.exposure == c.exposure
    requires c'.hflip == c.hflip && c'.vflip == c.vflip && c'.plain == c.plain
    ensures Wanted(c', id) == Wanted(c, id)
  {
  }

  // ---------- A format change while the sensor is in use ----------

  /** The vblank part of a format change. */
  function Reblank(c1: Cam, dev: Bus): Cam
    requires c1.mode < 4
  {
    var m := MODES[c1.mode];
    var c2 := ModifyRange(c1, dev, Vblank, VBLANK_MIN, VTS_MAX - m.height, m.vtsDef - m.height);
    SetIfChanged(c2, dev, Vblank, Clamp(m.vtsDef - m.height, c2.vblank.min, c2.vblank.max)).0
  }

  function DefaultVblank(mode: nat): int
    requires mode < 4
  {
    MODES[mode].vtsDef - MODES[mode].height
  }

  lemma RangeThenValue(c1: Cam, dev: Bus)
    requires c1.mode < 4
    ensures var m := MODES[c1.mode];
            var def := m.vtsDef - m.height;
            ModifyRange(c1, dev, Vblank, VBLANK_MIN, VTS_MAX - m.height, def) ==
            SetIfChanged(c1.(vblank := Ctrl(VBLANK_MIN, VTS_MAX - m.height, def, c1.vblank.val)), dev, Vblank,
                         Clamp(c1.vblank.val, VBLANK_MIN, VTS_MAX - m.height)).0
  {
    hide SetIfChanged;
    HeightIsTabled(c1);
  }

  lemma NoChangeNoWrite(c: Cam, dev: Bus)
    ensures SetIfChanged(c, dev, Vblank, c.vblank.val) == (c, true)
  {
  }

  /** The vblank part in use, with successful writes. */
  lemma ReblankRewrites(c1: Cam, dev: Bus)
    requires c1.mode < 4 && InUse(c1) && AllOk(dev, c1.sent, Reblank(c1, dev).sent)
    ensures var c3 := Reblank(c1, dev);
            c3.vblank.val == DefaultVblank(c1.mode) && SameCore(c1, c3)
            && if c1.vblank.val == DefaultVblank(c1.mode) then c3.log == c1.log else MirrorAt(c3, Vblank)
  {
    hide SetIfChanged, MirrorAt, ModifyRange;
    HeightIsTabled(c1);
    var m, def := MODES[c1.mode], DefaultVblank(c1.mode);
    var wide := c1.(vblank := Ctrl(VBLANK_MIN, VTS_MAX - m.height, def, c1.vblank.val));
    var v := Clamp(c1.vblank.val, VBLANK_MIN, VTS_MAX - m.height);
    var c2 := SetIfChanged(wide, dev, Vblank, v).0;
    SetCtrlKeepsCore(wide, dev, Vblank, v);
    var clamped := Clamp(def, c2.vblank.min, c2.vblank.max);
    SetCtrlKeepsCore(c2, dev, Vblank, clamped);
    NoChangeNoWrite(wide, dev);
    NoChangeNoWrite(c2, dev);
    RangeThenValue(c1, dev);
    assert Reblank(c1, dev) == SetIfChanged(c2, dev, Vblank, clamped).0;
    if v != c1.vblank.val {
      VblankRewrites(wide, dev, v);
    }
    if c2.vblank.val != def {
      VblankRewrites(c2, dev, def);
    }
  }

  lemma RetimeIsReblank(c1: Cam, dev: Bus)
    requires c1.mode < 4
    ensures var m := MODES[c1.mode];
            var w := PPL_DEFAULT - m.width;
            Retime(c1, dev) == ModifyRange(ModifyExposure(Reblank(c1, dev), dev, m.vtsDef - 4), dev, Hblank, w, w, w)
  {
    hide ModifyExposure, ModifyRange, SetIfChanged;
  }

  /** With any writes failing, the vblank part leaves every register as right as it was for the new mode. */
  lemma ReblankMirrors(c1: Cam, dev: Bus, x: CtrlId)
    requires c1.mode < 4 && InUse(c1) && Handled(x) && MirrorAt(c1, x)
    ensures MirrorAt(Reblank(c1, dev), x) && SameCore(c1, Reblank(c1, dev))
  {
    hide SetIfChanged, MirrorAt, ModifyRange;
    var m, def := MODES[c1.mode], DefaultVblank(c1.mode);
    var wide := c1.(vblank := Ctrl(VBLANK_MIN, VTS_MAX - m.height, def, c1.vblank.val));
    var v := Clamp(c1.vblank.val, VBLANK_MIN, VTS_MAX - m.height);
    RangeThenValue(c1, dev);
    MirrorReads(c1, wide, x);
    SetMirrors(wide, dev, Vblank, v, x);
    SetCtrlKeepsCore(wide, dev, Vblank, v);
    var c2 := SetIfChanged(wide, dev, Vblank, v).0;
    var clamped := Clamp(def, c2.vblank.min, c2.vblank.max);
    SetMirrors(c2, dev, Vblank, clamped, x);
    SetCtrlKeepsCore(c2, dev, Vblank, clamped);
  }

  lemma RetimeMirrors(c1: Cam, dev: Bus, x: CtrlId)
    requires c1.mode < 4 && InUse(c1) && Handled(x) && MirrorAt(c1, x)
    ensures MirrorAt(Retime(c1, dev), x)
  {
    hide MirrorAt, ModifyExposure, ModifyRange, Reblank, Retime;
    ReblankMirrors(c1, dev, x);
    RetimeIsReblank(c1, dev);
    var m, c3 := MODES[c1.mode], Reblank(c1, dev);
    ExposureMirrors(c3, dev, m.vtsDef - 4, x);
    HblankLeavesRegisters(ModifyExposure(c3, dev, m.vtsDef - 4), dev, PPL_DEFAULT - m.width, x);
  }

  lemma HblankLeavesRegisters(c: Cam, dev: Bus, w: int, x: CtrlId)
    requires Handled(x)
    ensures MirrorAt(ModifyRange(c, dev, Hblank, w, w, w), x) <==> MirrorAt(c, x)
  {
    hide MirrorAt;
    MirrorReads(c, ModifyRange(c, dev, Hblank, w, w, w), x);
  }

  /** A format change in use leaves every register but the frame length right, with any writes failing. */
  lemma FormatMirrorsOthers(c: Cam, dev: Bus, code: nat, nearest: nat, x: CtrlId)
    requires nearest < 4 && InUse(c) && Handled(x) && MirrorAt(c, x) && (x.Vblank? ==> nearest == c.mode)
    ensures MirrorAt(SetActiveFormat(c, dev, code, nearest), x)
  {
    hide FormatCode, CodeIndex, Codes, Retime, MirrorAt;
    var c1 := c.(code := FormatCode(c, Codes()[CodeIndex(code)]), mode := nearest);
    MirrorReads(c, c1, x);
    RetimeMirrors(c1, dev, x);
  }

  /**
    After a format change in use with successful writes, the frame-length register fits the new
    mode exactly if vblank had to move or the mode did not change: the driver rewrites the
    register only when the vblank value changes.
   */
  lemma FormatUpdatesVtsIff(c: Cam, dev: Bus, code: nat, nearest: nat)
    requires c.mode < 4 && InUse(c) && MirrorAt(c, Vblank) && nearest < 4
    requires AllOk(dev, c.sent, SetActiveFormat(c, dev, code, nearest).sent)
    ensures MirrorAt(SetActiveFormat(c, dev, code, nearest), Vblank) <==>
            c.vblank.val != DefaultVblank(nearest) || nearest == c.mode
  {
    hide FormatCode, CodeIndex, Codes, Reblank, ModifyExposure, ModifyRange, SetIfChanged, LastVal;
    var newCode := FormatCode(c, Codes()[CodeIndex(code)]);
    if !(c.mode == nearest && c.code == newCode) {
      var c1 := c.(code := newCode, mode := nearest);
      var m := MODES[nearest];
      HeightIsTabled(c1);
      HeightIsTabled(c);
      HeightsDiffer(c.mode, nearest);
      RetimeIsReblank(c1, dev);
      var c3 := Reblank(c1, dev);
      var c4 := ModifyExposure(c3, dev, m.vtsDef - 4);
      ExposureKeepsCore(c3, dev, m.vtsDef - 4);
      HblankRange(c4, dev, PPL_DEFAULT - m.width);
      ReblankRewrites(c1, dev);
      ModifyExposureFrame(c3, dev, m.vtsDef - 4);
      ExposureLeavesVts(c3, dev, m.vtsDef - 4);
    }
  }

  lemma HeightsDiffer(i: nat, j: nat)
    requires i < 4 && j < 4
    ensures MODES[i].height == MODES[j].height <==> i == j
  {
  }

  lemma ExposureLeavesVts(c: Cam, dev: Bus, max: int)
    ensures LastVal(ModifyExposure(c, dev, max).log, 0x0160) == LastVal(c.log, 0x0160)
  {
    hide LastVal;
    QuietKeepsLast(c.log, ModifyExposure(c, dev, max).log, 0x0160);
  }

  // ---------- Whole runs ----------

  /** A format change while streaming that the frame-length register follows. */
  ghost predicate VtsFollows(c: Cam, dev: Bus, op: Op)
    requires c.mode < 4 && Possible(op)
  {
    op.Format? && c.streaming ==>
      op.nearest == c.mode || (c.vblank.val != DefaultVblank(op.nearest) && AllOk(dev, c.sent, Do(c, dev, op).sent))
  }

  lemma StreamMirrors(c: Cam, dev: Bus, enable: bool, powered: bool)
    requires CodeInv(c) && StreamInv(c) && (c.streaming ==> Mirror(c))
    ensures var c' := SetStream(c, dev, enable, powered); c'.streaming ==> Mirror(c')
  {
    hide StartStreaming, Codes, MirrorAt;
    var c1 := c.(usage := c.usage + 1);
    StartKeepsCore(c1, dev);
    if enable && !c.streaming && powered && StartStreaming(c1, dev).1 {
      StartMirrors(c1, dev);
      var c2, c' := StartStreaming(c1, dev).0, SetStream(c, dev, enable, powered);
      forall x | Handled(x)
        ensures MirrorAt(c', x)
      {
        MirrorReads(c2, c', x);
      }
    }
  }

  lemma FormatMirrors(c: Cam, dev: Bus, code: nat, nearest: nat)
    requires c.mode < 4 && nearest < 4 && InUse(c) && c.streaming && Mirror(c)
             && VtsFollows(c, dev, Format(code, nearest))
    ensures Mirror(SetActiveFormat(c, dev, code, nearest))
  {
    hide SetActiveFormat, MirrorAt;
    forall x | Handled(x)
      ensures MirrorAt(SetActiveFormat(c, dev, code, nearest), x)
    {
      if !x.Vblank? || nearest == c.mode {
        FormatMirrorsOthers(c, dev, code, nearest, x);
      } else {
        FormatUpdatesVtsIff(c, dev, code, nearest);
      }
    }
  }

  lemma DoKeepsMirror(c: Cam, dev: Bus, op: Op)
    requires CodeInv(c) && StreamInv(c) && Possible(op) && (c.streaming ==> Mirror(c)) && VtsFollows(c, dev, op)
    ensures var c' := Do(c, dev, op); c'.streaming ==> Mirror(c')
  {
    hide Mirror, SetStream, UserSet, SetActiveFormat, Codes;
    match op {
      case Format(code, nearest) =>
        FormatStreams(c, dev, code, nearest);
        if c.streaming {
          FormatMirrors(c, dev, code, nearest);
        }
      case Control(id, v) =>
        UserStreams(c, dev, id, v);
        if c.streaming {
          UserSetMirrors(c, dev, id, v);
        }
      case Stream(enable, powered) =>
        StreamMirrors(c, dev, enable, powered);
      case Others(use) =>
        OthersMirror(c, use);
    }
  }

  lemma OthersMirror(c: Cam, use: bool)
    ensures Mirror(c.(othersUse := use)) <==> Mirror(c)
  {
    hide MirrorAt;
    forall x | Handled(x)
      ensures MirrorAt(c.(othersUse := use), x) <==> MirrorAt(c, x)
    {
      MirrorReads(c, c.(othersUse := use), x);
    }
  }

  /**
    In every run, with any writes failing, every control's register holds the control's value
    whenever the sensor streams, as long as every format change made while streaming stays in
    the mode or moves vblank and gets its writes through.
   */
  lemma {:induction false} StreamingMirrorsControls(tr: seq<Cam>, ops: seq<Op>, dev: Bus, i: nat)
    requires Calls(tr, ops, dev) && i < |tr|
    requires forall k :: 0 <= k < i ==> VtsFollows(tr[k], dev, ops[k])
    ensures tr[i].streaming ==> Mirror(tr[i])
  {
    hide Do, Mirror, Good, VtsFollows, CodeInv, StreamInv;
    if i == 0 {
      InitialIsGood(dev);
    } else {
      RunIsGood(tr, ops, dev, i - 1);
      GoodIs(tr[i - 1], dev);
      StreamingMirrorsControls(tr, ops, dev, i - 1);
      DoKeepsMirror(tr[i - 1], dev, ops[i - 1]);
    }
  }
}
