/** The IMX219 driver with its fields updated in place, proved to follow `Imx219Sensor`. */
module Imx219Driver {
  import opened Imx219Tables
  import opened Imx219Sensor
  import opened Imx219Theorems
  import opened Imx219Start
  import opened Imx219Runs
  import opened Imx219Bayer
  import opened Imx219Stop

  class Sensor {
    const dev: Bus
    var mode: nat
    var code: nat
    var vblank: Ctrl
    var exposure: Ctrl
    var hblank: Ctrl
    var hflip: Ctrl
    var vflip: Ctrl
    var plain: seq<Ctrl>
    var hflipGrabbed: bool
    var vflipGrabbed: bool
    var streaming: bool
    var usage: int
    var othersUse: bool
    var sent: nat
    var log: seq<Write>

    ghost function View(): Cam
      reads this
    {
      Cam(mode, code, vblank, exposure, hblank, hflip, vflip, plain, hflipGrabbed, vflipGrabbed, streaming, usage,
          othersUse, sent, log)
    }

    constructor (dev: Bus)
      ensures this.dev == dev && View() == Initial() && Good(View(), dev)
    {
      this.dev := dev;
      var m := MODES[0];
      mode, code := 0, Codes()[0];
      vblank := Ctrl(VBLANK_MIN, VTS_MAX - m.height, m.vtsDef - m.height, m.vtsDef - m.height);
      exposure := Ctrl(EXPOSURE_MIN, m.vtsDef - 4, EXPOSURE_DEFAULT, EXPOSURE_DEFAULT);
      hblank := Ctrl(PPL_DEFAULT - m.width, PPL_DEFAULT - m.width, PPL_DEFAULT - m.width, PPL_DEFAULT - m.width);
      hflip, vflip := Ctrl(0, 1, 0, 0), Ctrl(0, 1, 0, 0);
      plain := Initial().plain;
      hflipGrabbed, vflipGrabbed, streaming, usage, othersUse, sent, log := false, false, false, 0, false, 0, [];
    }

    method WriteReg(w: Write) returns (ok: bool)
      modifies this`sent, this`log
      ensures (View(), ok) == Imx219Sensor.WriteReg(old(View()), dev, w)
    {
      ok := dev(sent);
      sent := sent + 1;
      if ok {
        log := log + [w];
      }
    }

    /** imx219_write_regs: up to the first failure. */
    method WriteRegs(regs: seq<Write>) returns (ok: bool)
      modifies this`sent, this`log
      ensures (View(), ok) == Imx219Sensor.WriteRegs(old(View()), dev, regs)
      ensures log == old(log) + regs[..Reached(dev, old(sent), |regs|)]
              && (ok <==> Reached(dev, old(sent), |regs|) == |regs|)
    {
      WriteRegsIsPrefix(View(), dev, regs);
      var i := 0;
      while i < |regs|
        invariant i <= |regs|
        invariant Imx219Sensor.WriteRegs(View(), dev, regs[i..]) == Imx219Sensor.WriteRegs(old(View()), dev, regs)
      {
        assert regs[i..][1..] == regs[i + 1..];
        ok := WriteReg(regs[i]);
        if !ok {
          return;
        }
        i := i + 1;
      }
      ok := true;
    }

    /** imx219_get_format_code, with its search loop. */
    method GetFormatCode(wanted: nat) returns (r: nat)
      ensures r == FormatCode(View(), wanted) && r in Codes()
      ensures wanted in Codes() ==> Depth(r) == Depth(wanted)
      ensures NameOf(r) == Raw(if NameOf(wanted).Raw? then NameOf(wanted).bits else 10,
                               Oriented(hflip.val != 0, vflip.val != 0))
    {
      hide Codes, CodeIndexFrom, Depth, NameOf, Oriented;
      ReportedOrderFollowsFlips(View(), wanted);
      NamedIsTabled(wanted);
      DepthIsNamed(wanted);
      DepthIsNamed(FormatCode(View(), wanted));
      var i := FindCode(wanted);
      r := Codes()[FlippedIndex(i, hflip.val != 0, vflip.val != 0)];
    }

    /** The code lookup shared by imx219_get_format_code and imx219_set_pad_format. */
    method FindCode(wanted: nat) returns (i: nat)
      ensures i == CodeIndex(wanted) && i < 8
    {
      i := 0;
      while i < 8
        invariant i <= 8 && CodeIndexFrom(wanted, i) == CodeIndex(wanted)
      {
        if Codes()[i] == wanted {
          break;
        }
        i := i + 1;
      }
      if i >= 8 {
        i := 0;
      }
    }

    method Store(id: CtrlId, x: Ctrl)
      modifies this`vblank, this`exposure, this`hblank, this`hflip, this`vflip, this`plain
      ensures View() == Put(old(View()), id, x)
    {
      match id {
        case Vblank => vblank := x;
        case Exposure => exposure := x;
        case Hblank => hblank := x;
        case Hflip => hflip := x;
        case Vflip => vflip := x;
        case Plain(k) =>
          if k < |plain| {
            plain := plain[k := x];
          }
      }
    }

    method Load(id: CtrlId) returns (x: Ctrl)
      ensures x == Get(View(), id)
    {
      match id {
        case Vblank => x := vblank;
        case Exposure => x := exposure;
        case Hblank => x := hblank;
        case Hflip => x := hflip;
        case Vflip => x := vflip;
        case Plain(k) => x := if k < |plain| then plain[k] else Ctrl(0, 0, 0, 0);
      }
    }

    /** The part of imx219_set_ctrl that needs the sensor in use; the PM reference it takes is dropped again. */
    method ApplyCtrl(id: CtrlId, val: int) returns (ok: bool)
      modifies this`sent, this`log, this`usage
      ensures (View(), ok) == Imx219Sensor.ApplyCtrl(old(View()), dev, id, val)
    {
      hide CtrlWrite, Imx219Sensor.WriteReg;
      if !(usage > 0 || othersUse) {
        return true;
      }
      ghost var c := View();
      WriteIgnoresUsage(c, dev, id, val, c.usage + 1);
      usage := usage + 1;
      assert View() == c.(usage := c.usage + 1);
      ok := SwitchCtrl(id, val);
      ghost var c1 := View();
      usage := usage - 1;
      assert View() == c1.(usage := c.usage);
    }

    /** The switch over control ids. */
    method SwitchCtrl(id: CtrlId, val: int) returns (ok: bool)
      modifies this`sent, this`log
      ensures var ws := CtrlWrite(old(View()), id, val);
              (View(), ok) == if ws == [] then (old(View()), false) else Imx219Sensor.WriteReg(old(View()), dev, ws[0])
    {
      hide Imx219Sensor.WriteReg;
      var height := if mode < |MODES| then MODES[mode].height else 0;
      match id {
        case Vblank => ok := WriteReg(Write(0x0160, 2, Val(height + val)));
        case Exposure => ok := WriteReg(Write(0x015a, 2, Val(val)));
        case Hblank => ok := false;
        case Hflip => ok := WriteReg(Write(0x0172, 1, Val(val + 2 * vflip.val)));
        case Vflip => ok := WriteReg(Write(0x0172, 1, Val(hflip.val + 2 * val)));
        case Plain(k) => ok := WritePlain(k, val);
      }
    }

    method WritePlain(k: nat, val: int) returns (ok: bool)
      modifies this`sent, this`log
      ensures var ws := CtrlWrite(old(View()), Plain(k), val);
              (View(), ok) == if ws == [] then (old(View()), false) else Imx219Sensor.WriteReg(old(View()), dev, ws[0])
    {
      if k >= |PLAIN_REGS| {
        return false;
      }
      var v := if k == 2 then (if 0 <= val < |TEST_PATTERN_VAL| then TEST_PATTERN_VAL[val] else 0) else Val(val);
      ok := WriteReg(Write(PLAIN_REGS[k].0, PLAIN_REGS[k].1, v));
    }

    method ModifyExposure(max: int)
      modifies this
      ensures View() == Imx219Sensor.ModifyExposure(old(View()), dev, max)
    {
      var def := if max < EXPOSURE_DEFAULT then max else EXPOSURE_DEFAULT;
      if max < exposure.min || def < exposure.min {
        return;
      }
      var v := Clamp(exposure.val, exposure.min, max);
      exposure := Ctrl(exposure.min, max, def, exposure.val);
      if v != exposure.val {
        hide Imx219Sensor.ApplyCtrl;
        var ok := ApplyCtrl(Exposure, v);
        if ok {
          exposure := exposure.(val := v);
        }
      }
    }

    /** imx219_set_ctrl. */
    method SetCtrl(id: CtrlId, val: int) returns (ok: bool)
      modifies this
      ensures (View(), ok) == Imx219Sensor.SetCtrl(old(View()), dev, id, val)
    {
      hide Imx219Sensor.ApplyCtrl, Imx219Sensor.ModifyExposure;
      if id.Vblank? {
        ModifyExposure((if mode < |MODES| then MODES[mode].height else 0) + val - 4);
      }
      ok := ApplyCtrl(id, val);
    }

    method SetIfChanged(id: CtrlId, v: int) returns (ok: bool)
      modifies this
      ensures (View(), ok) == Imx219Sensor.SetIfChanged(old(View()), dev, id, v)
    {
      hide Imx219Sensor.SetCtrl, Put, Get;
      var x := Load(id);
      if v == x.val {
        return true;
      }
      ok := SetCtrl(id, v);
      if ok {
        x := Load(id);
        Store(id, x.(val := v));
      }
    }

    method ModifyRange(id: CtrlId, min: int, max: int, def: int)
      modifies this
      ensures View() == Imx219Sensor.ModifyRange(old(View()), dev, id, min, max, def)
    {
      hide Imx219Sensor.SetIfChanged, Put, Get;
      if max < min || def < min || max < def {
        return;
      }
      var x := Load(id);
      Store(id, Ctrl(min, max, def, x.val));
      var _ := SetIfChanged(id, Clamp(x.val, min, max));
    }

    /** imx219_set_pad_format for the active format. */
    method SetPadFormat(wanted: nat, nearest: nat)
      requires Good(View(), dev) && nearest < 4
      modifies this
      ensures View() == SetActiveFormat(old(View()), dev, wanted, nearest) && Good(View(), dev)
    {
      hide Good, Imx219Sensor.ModifyRange, Imx219Sensor.SetIfChanged, Imx219Sensor.ModifyExposure, Codes, CodeIndexFrom;
      assert Possible(Format(wanted, nearest));
      GoodMode(View(), dev);
      DoKeepsGood(View(), dev, Format(wanted, nearest));
      var i := FindCode(wanted);
      var newCode := GetFormatCode(Codes()[i]);
      if mode != nearest || code != newCode {
        var m := MODES[nearest];
        code, mode := newCode, nearest;
        ModifyRange(Vblank, VBLANK_MIN, VTS_MAX - m.height, m.vtsDef - m.height);
        var _ := SetIfChanged(Vblank, Clamp(m.vtsDef - m.height, vblank.min, vblank.max));
        ModifyExposure(m.vtsDef - 4);
        ModifyRange(Hblank, PPL_DEFAULT - m.width, PPL_DEFAULT - m.width, PPL_DEFAULT - m.width);
      }
    }

    /** __v4l2_ctrl_handler_setup. */
    method SetupControls() returns (ok: bool)
      modifies this
      ensures (View(), ok) == Setup(old(View()), dev, SETUP_ORDER)
    {
      hide Imx219Sensor.SetCtrl, Get;
      var i := 0;
      while i < |SETUP_ORDER|
        invariant i <= |SETUP_ORDER|
        invariant Setup(View(), dev, SETUP_ORDER[i..]) == Setup(old(View()), dev, SETUP_ORDER)
      {
        assert SETUP_ORDER[i..][1..] == SETUP_ORDER[i + 1..];
        var x := Load(SETUP_ORDER[i]);
        ok := SetCtrl(SETUP_ORDER[i], x.val);
        if !ok {
          return;
        }
        i := i + 1;
      }
      ok := true;
    }

    method StartStreaming() returns (ok: bool)
      requires CodeInv(View())
      modifies this
      ensures (View(), ok) == Imx219Sensor.StartStreaming(old(View()), dev)
    {
      hide Imx219Sensor.WriteRegs, Setup, ModeRegs, FrameFormatRegs, Imx219Sensor.WriteReg, Codes;
      FrameFormatAgrees(View());
      WriteRegsOnlyIo(View(), dev, ModeRegs(mode));
      ok := WriteRegs(ModeRegs(mode));
      if !ok {
        return;
      }
      ok := WriteRegs(FrameFormatRegs(code));
      if !ok {
        return;
      }
      ok := SetupControls();
      if !ok {
        return;
      }
      ok := WriteReg(Write(REG_MODE_SELECT, 1, MODE_STREAMING));
    }

    /** imx219_stop_streaming: a failed write is only reported. */
    method StopStreaming()
      modifies this
      ensures View() == Imx219Sensor.WriteReg(old(View()), dev, Write(REG_MODE_SELECT, 1, MODE_STANDBY)).0
      ensures Selected(View()) == if dev(old(sent)) then MODE_STANDBY else old(Selected(View()))
    {
      hide LastVal;
      LastOfAppend(log, Write(REG_MODE_SELECT, 1, MODE_STANDBY), REG_MODE_SELECT);
      var _ := WriteReg(Write(REG_MODE_SELECT, 1, MODE_STANDBY));
    }

    /** imx219_set_stream. */
    method SetStream(enable: bool, powered: bool)
      requires Good(View(), dev)
      modifies this
      ensures View() == Imx219Sensor.SetStream(old(View()), dev, enable, powered)
      ensures Good(View(), dev) && StreamInv(View())
    {
      hide Good, StreamInv, Imx219Sensor.StartStreaming, Imx219Sensor.WriteReg, Codes;
      StreamGood(View(), dev, enable, powered);
      if streaming == enable {
        return;
      }
      ghost var c := View();
      if enable {
        usage := usage + 1;
        assert View() == c.(usage := c.usage + 1);
        if !powered {
          usage := usage - 1;
          return;
        }
        var ok := StartStreaming();
        ghost var c1 := View();
        if !ok {
          usage := usage - 1;
          assert View() == c1.(usage := c1.usage - 1);
          return;
        }
      } else {
        StopStreaming();
        usage := usage - 1;
      }
      streaming := enable;
      vflipGrabbed := enable;
      hflipGrabbed := enable;
    }
  }

  /** A PM reference held around a write changes neither what is written nor whether it succeeds. */
  lemma WriteIgnoresUsage(c: Cam, dev: Bus, id: CtrlId, val: int, u: int)
    ensures var held, ws := c.(usage := u), CtrlWrite(c, id, val);
            CtrlWrite(held, id, val) == ws
            && held.(usage := c.usage) == c
            && (ws != [] ==>
                  var r, r' := Imx219Sensor.WriteReg(c, dev, ws[0]), Imx219Sensor.WriteReg(held, dev, ws[0]);
                  r'.0.(usage := c.usage) == r.0 && r'.1 == r.1)
  {
    WriteSetIgnoresUsage(c, id, val, u);
    hide CtrlWrite;
  }

  lemma WriteSetIgnoresUsage(c: Cam, id: CtrlId, val: int, u: int)
    ensures CtrlWrite(c.(usage := u), id, val) == CtrlWrite(c, id, val)
  {
  }

  lemma StreamGood(c: Cam, dev: Bus, enable: bool, powered: bool)
    requires Good(c, dev)
    ensures CodeInv(c) && c.mode < 4
    ensures var c' := Imx219Sensor.SetStream(c, dev, enable, powered); Good(c', dev) && StreamInv(c')
  {
    hide Imx219Sensor.SetStream, StreamInv, CodeInv;
    GoodMode(c, dev);
    DoKeepsGood(c, dev, Stream(enable, powered));
  }

  lemma GoodMode(c: Cam, dev: Bus)
    requires Good(c, dev)
    ensures CodeInv(c) && c.mode < 4 && StreamInv(c)
  {
  }
}
