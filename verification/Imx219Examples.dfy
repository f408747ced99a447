/** Runs from probe that show where the IMX219 driver misses what one would expect of it. */
module Imx219Examples {
  import opened Imx219Tables
  import opened Imx219Sensor
  import opened Imx219Theorems
  import opened Imx219Start
  import opened Imx219Runs
  import opened Imx219Mirror
  import opened Imx219Depth
  import opened Imx219Stop

  /** The states that a list of calls goes through. */
  lemma {:induction false} CallsOf(ops: seq<Op>, dev: Bus) returns (tr: seq<Cam>)
    requires forall i :: 0 <= i < |ops| ==> Possible(ops[i])
    ensures Calls(tr, ops, dev)
    decreases |ops|
  {
    hide Do, Good, Initial;
    if ops == [] {
      tr := [Initial()];
    } else {
      var n := |ops| - 1;
      var front := CallsOf(ops[..n], dev);
      RunIsGood(front, ops[..n], dev, n);
      GoodIs(front[n], dev);
      tr := front + [Do(front[n], dev, ops[n])];
      forall i | 0 <= i < |ops|
        ensures tr[i].mode < 4 && tr[i + 1] == Do(tr[i], dev, ops[i])
      {
        assert i < n ==> ops[..n][i] == ops[i];
      }
    }
  }

  /** A mode change while the sensor is in use: hblank + width is no longer 3448. */
  lemma HblankExample(dev: Bus, code: nat) returns (tr: seq<Cam>)
    ensures Calls(tr, [Others(true), Format(code, 1)], dev) && !HblankFits(tr[2])
  {
    hide SetActiveFormat, HblankFits;
    tr := CallsOf([Others(true), Format(code, 1)], dev);
    assert tr[1] == Initial().(othersUse := true);
    RunKeepsHblank(tr, [Others(true), Format(code, 1)], dev, 1);
    RunIsGood(tr, [Others(true), Format(code, 1)], dev, 1);
    DoKeepsHblankIff(tr[1], dev, Format(code, 1));
    assert tr[1 + 1] == Do(tr[1], dev, Format(code, 1));
  }

  const LONGER := [Others(true), Control(Vblank, 2000)]

  lemma LongerFrameFails(tr: seq<Cam>, ops: seq<Op>, dev: Bus)
    requires |ops| >= 2 && ops[..2] == LONGER && Calls(tr, ops, dev) && !dev(0)
    ensures tr[2] == Initial().(othersUse := true, exposure := Ctrl(4, 4460, 1600, 1600), sent := 1)
  {
    assert ops[0] == ops[..2][0] && ops[1] == ops[..2][1];
    assert tr[0 + 1] == Initial().(othersUse := true);
    assert tr[1 + 1] == Do(tr[1], dev, Control(Vblank, 2000));
  }

  /** A longer frame whose VTS write fails: the exposure limit has moved, the frame length has not. */
  lemma VblankExample(dev: Bus) returns (tr: seq<Cam>)
    requires !dev(0)
    ensures Calls(tr, LONGER, dev) && tr[2].exposure.max != Height(tr[2]) + tr[2].vblank.val - 4
  {
    hide Do;
    tr := CallsOf(LONGER, dev);
    LongerFrameFails(tr, LONGER, dev);
  }

  const TOO_LONG := LONGER + [Control(Exposure, 4000), Stream(true, true)]

  /** The failing writes: the VTS write, and the one that clamps the exposure during the start. */
  function Unlucky(): Bus {
    var n := 2 + |Boot(Initial())|;
    (k: nat) => k != 0 && k != n
  }

  /**
    A longer frame whose VTS write fails, an exposure that only fits the longer frame, and a
    start whose clamping write fails: the start succeeds all the same and the sensor streams.
   */
  lemma HiddenFailureExample() returns (tr: seq<Cam>)
    ensures Calls(tr, TOO_LONG, Unlucky()) && tr[4].streaming && LastVal(tr[4].log, REG_MODE_SELECT) == MODE_STREAMING
    ensures tr[3].sent <= 2 + |Boot(Initial())| < tr[4].sent && !Unlucky()(2 + |Boot(Initial())|)
  {
    hide Boot, StartStreaming, LastVal;
    var dev := Unlucky();
    tr := CallsOf(TOO_LONG, dev);
    LongerFrameFails(tr, TOO_LONG, dev);
    assert tr[2 + 1] == Do(tr[2], dev, Control(Exposure, 4000));
    LongExposure(tr[2], dev);
    var c := tr[3].(usage := tr[3].usage + 1);
    RunIsReadyToStart(tr, TOO_LONG, dev, 3);
    BootReadsMode(Initial(), c);
    StartHidesFailure(c, dev);
    assert tr[3 + 1] == Do(tr[3], dev, Stream(true, true));
  }

  lemma LongExposure(c: Cam, dev: Bus)
    requires c == Initial().(othersUse := true, exposure := Ctrl(4, 4460, 1600, 1600), sent := 1) && dev(1)
    ensures Do(c, dev, Control(Exposure, 4000)) ==
            c.(exposure := Ctrl(4, 4460, 1600, 4000), sent := 2, log := [Write(0x015a, 2, 4000)])
  {
  }

  lemma BootReadsMode(c: Cam, c': Cam)
    requires c.mode < 4 && c'.mode == c.mode && c'.code == c.code
    ensures Boot(c') == Boot(c)
  {
    hide ModeRegs, FrameFormatRegs;
  }

  function StaleOps(code: nat): seq<Op> {
    [Format(code, 1), Control(Vblank, 531), Stream(true, true), Format(code, 2)]
  }

  /**
    Streaming 1920x1080 with vblank 531, which is what 1640x1232 has by default: every write
    succeeds, but changing to that mode leaves the old frame length in the register.
   */
  lemma StaleVtsExample(dev: Bus, code: nat) returns (tr: seq<Cam>)
    requires forall n :: dev(n)
    ensures Calls(tr, StaleOps(code), dev) && tr[3].streaming && Mirror(tr[3])
    ensures tr[4].streaming && tr[4].mode == 2 && !MirrorAt(tr[4], Vblank)
  {
    hide SetActiveFormat, UserSet, SetStream, Timing, Mirror, MirrorAt, Good, CodeInv, StreamInv;
    var ops := StaleOps(code);
    tr := CallsOf(ops, dev);
    assert tr[0 + 1] == Do(tr[0], dev, ops[0]) && tr[1 + 1] == Do(tr[1], dev, ops[1]);
    assert tr[2 + 1] == Do(tr[2], dev, ops[2]) && tr[3 + 1] == Do(tr[3], dev, ops[3]);
    RunIsGood(tr, ops, dev, 2);
    RunIsGood(tr, ops, dev, 3);
    GoodIs(tr[2], dev);
    GoodIs(tr[3], dev);
    RunKeepsTiming(tr, ops, dev, 1);
    RunKeepsTiming(tr, ops, dev, 2);
    FormatSetsMode(tr[0], dev, code, 1);
    SetsVblank(tr[1], dev, 531);
    StartsStreaming(tr[2], dev);
    StreamKeepsBlanking(tr[2], dev, true, true);
    StreamingMirrorsControls(tr, ops, dev, 3);
    MirrorsAll(tr[3]);
    FormatSetsMode(tr[3], dev, code, 2);
    FormatUpdatesVtsIff(tr[3], dev, code, 2);
  }

  lemma MirrorsAll(c: Cam)
    requires Mirror(c)
    ensures MirrorAt(c, Vblank)
  {
    hide MirrorAt;
  }

  lemma FormatSetsMode(c: Cam, dev: Bus, code: nat, nearest: nat)
    requires c.mode < 4 && nearest < 4
    ensures var c' := SetActiveFormat(c, dev, code, nearest); c'.mode == nearest && c'.streaming == c.streaming
  {
    hide FormatCode, CodeIndex, Codes, Retime;
    RetimeKeepsCore(c.(code := FormatCode(c, Codes()[CodeIndex(code)]), mode := nearest), dev);
  }

  lemma SetsVblank(c: Cam, dev: Bus, v: int)
    requires Timing(c) && VBLANK_MIN <= v <= VTS_MAX - Height(c) && forall n :: dev(n)
    ensures var c' := UserSet(c, dev, Vblank, v).0;
            c'.vblank.val == v && c'.mode == c.mode && c'.streaming == c.streaming
  {
    hide SetIfChanged;
    VblankSettles(c, dev, v);
    SetCtrlKeepsCore(c, dev, Vblank, v);
  }

  lemma StartsStreaming(c: Cam, dev: Bus)
    requires CodeInv(c) && StreamInv(c) && FloorInv(c) && Timing(c) && forall n :: dev(n)
    ensures var c' := SetStream(c, dev, true, true); c'.streaming && c'.mode == c.mode && InUse(c')
  {
    hide StartStreaming, Codes;
    var c1 := c.(usage := c.usage + 1);
    StartWritesPrefix(c1, dev);
    StartKeepsCore(c1, dev);
  }

  const EIGHT_BITS := [Stream(true, true), Format(0x3014, 0)]

  /** Asking for 8 bits while streaming at 10: the driver reports 8, the sensor still sends 10. */
  lemma StaleDepthExample(dev: Bus) returns (tr: seq<Cam>)
    requires forall n :: dev(n)
    ensures Calls(tr, EIGHT_BITS, dev) && tr[2].streaming && !DepthCurrent(tr[2])
    ensures Depth(FormatCode(tr[2], tr[2].code)) == 8 && LastVal(tr[2].log, 0x018c) == 10
  {
    hide SetActiveFormat, SetStream, Timing, Good, StreamInv, DepthCurrent, LastVal, FormatCode, Codes, CodeIndexFrom,
         Depth;
    tr := CallsOf(EIGHT_BITS, dev);
    assert tr[0 + 1] == Do(tr[0], dev, EIGHT_BITS[0]) && tr[1 + 1] == Do(tr[1], dev, EIGHT_BITS[1]);
    InitialIsGood(dev);
    GoodIs(tr[0], dev);
    RunIsGood(tr, EIGHT_BITS, dev, 2);
    GoodIs(tr[2], dev);
    StartsStreaming(tr[0], dev);
    StreamSetsDepth(tr[0], dev, true, true);
    KeepsCode(tr[0], dev);
    FormatStreams(tr[1], dev, 0x3014, 0);
    TableDepths();
    FormatUpdatesDepthIff(tr[1], dev, 0x3014, 0);
    StoredDepth(tr[1], dev, 0x3014, 0);
    FrameFormatAgrees(tr[2]);
    StaleRegister(tr[1], dev);
  }

  lemma TableDepths()
    ensures AskedDepth(0x3014) == 8 && Depth(Initial().code) == 10
  {
    DepthOfIndex(0);
    DepthOfIndex(4);
  }

  lemma KeepsCode(c: Cam, dev: Bus)
    requires c.mode < 4
    ensures SetStream(c, dev, true, true).code == c.code
  {
    hide StartStreaming;
    StartKeepsCore(c.(usage := c.usage + 1), dev);
  }

  lemma StaleRegister(c: Cam, dev: Bus)
    requires DepthCurrent(c)
    ensures LastVal(SetActiveFormat(c, dev, 0x3014, 0).log, 0x018c) == Depth(c.code)
  {
    hide SetActiveFormat, LastVal, Depth;
    FormatWritesOnlyControls(c, dev, 0x3014, 0, 0x018c);
    QuietKeepsLast(c.log, SetActiveFormat(c, dev, 0x3014, 0).log, 0x018c);
  }

  const ON_OFF := [Stream(true, true), Stream(false, true)]

  /** Every write of a first start succeeds, the next write fails. */
  function FailsAfterStart(): Bus {
    var n := |Script(Initial().(usage := 1))|;
    (k: nat) => k != n
  }

  /** A stop whose write fails: the driver has stopped, the sensor streams on. */
  lemma LostStopExample() returns (tr: seq<Cam>)
    ensures Calls(tr, ON_OFF, FailsAfterStart()) && tr[1].streaming && !tr[2].streaming
    ensures Selected(tr[2]) == MODE_STREAMING
  {
    hide StartStreaming, LastVal, Boot, Tail, Codes;
    var dev := FailsAfterStart();
    tr := CallsOf(ON_OFF, dev);
    assert tr[0 + 1] == Do(tr[0], dev, ON_OFF[0]) && tr[1 + 1] == Do(tr[1], dev, ON_OFF[1]);
    InitialIsGood(dev);
    GoodIs(tr[0], dev);
    var c := Initial().(usage := 1);
    StartWritesPrefix(c, dev);
    StartSelectsMode(c, dev);
    StartKeepsCore(c, dev);
    StopSelectsStandby(tr[1], dev, true);
  }
}
