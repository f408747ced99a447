/** What stopping a stream writes, and MODE_SELECT over whole runs. */
module Imx219Stop {
  import opened Imx219Tables
  import opened Imx219Sensor
  import opened Imx219Theorems
  import opened Imx219Start
  import opened Imx219Runs
  import opened Imx219Depth

  function Selected(c: Cam): int { LastVal(c.log, REG_MODE_SELECT) }

  /** Stopping a stream attempts one write: standby if it gets through, and nothing if it does not. */
  lemma StopSelectsStandby(c: Cam, dev: Bus, powered: bool)
    requires c.mode < 4 && c.streaming
    ensures var c' := SetStream(c, dev, false, powered);
            !c'.streaming && c'.sent == c.sent + 1 && (!dev(c.sent) ==> c'.log == c.log)
            && Selected(c') == if dev(c.sent) then MODE_STANDBY else Selected(c)
  {
    LastOfAppend(c.log, Write(REG_MODE_SELECT, 1, MODE_STANDBY), REG_MODE_SELECT);
    hide LastVal;
  }

  /** Everything but starting and stopping leaves MODE_SELECT alone. */
  lemma OthersKeepSelection(c: Cam, dev: Bus, op: Op)
    requires c.mode < 4 && Possible(op) && !op.Stream?
    ensures Selected(Do(c, dev, op)) == Selected(c) && Do(c, dev, op).streaming == c.streaming
  {
    hide LastVal, SetActiveFormat, UserSet, SetIfChanged;
    ModeSelectIsNoControl();
    match op {
      case Format(code, nearest) =>
        FormatWritesOnlyControls(c, dev, code, nearest, REG_MODE_SELECT);
        QuietKeepsLast(c.log, SetActiveFormat(c, dev, code, nearest).log, REG_MODE_SELECT);
        FormatStreams(c, dev, code, nearest);
      case Control(id, v) =>
        UserSetQuiet(c, dev, id, v, REG_MODE_SELECT);
        QuietKeepsLast(c.log, UserSet(c, dev, id, v).0.log, REG_MODE_SELECT);
        UserStreams(c, dev, id, v);
      case Others(_) =>
    }
  }

  lemma ModeSelectIsNoControl()
    ensures NoControl(REG_MODE_SELECT)
  {
  }

  lemma UserSetQuiet(c: Cam, dev: Bus, id: CtrlId, v: int, addr: nat)
    requires NoControl(addr)
    ensures QuietAt(c.log, UserSet(c, dev, id, v).0.log, addr)
  {
    hide SetIfChanged, NoControl;
    SetCtrlQuiet(c, dev, id, Clamp(v, Get(c, id).min, Get(c, id).max), addr);
  }

  /** What one call to start or stop does to MODE_SELECT. */
  lemma StreamSelects(c: Cam, dev: Bus, enable: bool, powered: bool)
    requires c.mode < 4
    ensures var c' := SetStream(c, dev, enable, powered);
            && (c.streaming == enable ==> c' == c)
            && (c.streaming && !enable ==> !c'.streaming && Selected(c') == if dev(c.sent) then MODE_STANDBY
               else Selected(c))
            && (!c.streaming && enable && c'.log == c.log ==> !c'.streaming)
            && (!c.streaming && enable && c'.log != c.log ==>
                  Selected(c') == if c'.streaming then MODE_STREAMING else MODE_STANDBY)
  {
    hide StartStreaming, LastVal;
    if c.streaming {
      StopSelectsStandby(c, dev, powered);
    } else {
      var c1 := c.(usage := c.usage + 1);
      StartSelectsMode(c1, dev);
      StartKeepsCore(c1, dev);
      SuccessWrites(c1, dev);
    }
  }

  lemma SuccessWrites(c: Cam, dev: Bus)
    requires c.mode < 4
    ensures StartStreaming(c, dev).1 ==> StartStreaming(c, dev).0.log != c.log
  {
    hide ModeRegs, SetFramefmt, WriteRegs, Setup, LastVal;
    BootSelectsStandby(c, dev);
    MiddleIsQuiet(WriteRegs(c, dev, ModeRegs(c.mode)).0, dev);
  }

  // ---------- Whole runs ----------

  /** The last thing that happened to MODE_SELECT was a stop whose write failed. */
  ghost predicate StopLost(tr: seq<Cam>, ops: seq<Op>, dev: Bus, i: nat)
    requires i < |tr| == |ops| + 1
    decreases i
  {
    i > 0 &&
    var c, c', op := tr[i - 1], tr[i], ops[i - 1];
    if op.Stream? && c.streaming && !op.enable then !dev(c.sent)
    else if op.Stream? && !c.streaming && op.enable && c'.log != c.log then false
    else StopLost(tr, ops, dev, i - 1)
  }

  /**
    In every state of every run MODE_SELECT is unwritten, streaming or standby; while the driver
    streams it is streaming; and while it does not, exactly if the last stop failed and no start
    has got a write through since.
   */
  lemma {:induction false} SelectionFollowsStreaming(tr: seq<Cam>, ops: seq<Op>, dev: Bus, i: nat)
    requires Calls(tr, ops, dev) && i < |tr|
    ensures tr[i].streaming ==> Selected(tr[i]) == MODE_STREAMING && !StopLost(tr, ops, dev, i)
    ensures !tr[i].streaming ==> (Selected(tr[i]) == MODE_STREAMING <==> StopLost(tr, ops, dev, i))
    ensures Selected(tr[i]) == -1 || Selected(tr[i]) == MODE_STANDBY || Selected(tr[i]) == MODE_STREAMING
  {
    hide Do, LastVal, SetStream;
    if i > 0 {
      SelectionFollowsStreaming(tr, ops, dev, i - 1);
      var c, op := tr[i - 1], ops[i - 1];
      assert tr[i - 1 + 1] == Do(c, dev, op);
      if op.Stream? {
        DoStream(c, dev, op.enable, op.powered);
        StreamSelects(c, dev, op.enable, op.powered);
      } else {
        OthersKeepSelection(c, dev, op);
      }
    } else {
      NothingLogged();
    }
  }

  lemma DoStream(c: Cam, dev: Bus, enable: bool, powered: bool)
    requires c.mode < 4
    ensures Do(c, dev, Stream(enable, powered)) == SetStream(c, dev, enable, powered)
  {
  }

  lemma NothingLogged()
    ensures Selected(Initial()) == -1 && !Initial().streaming
  {
  }

  /** Once written, MODE_SELECT agrees with the driver exactly if no stop is lost. */
  lemma SelectionAgreesIff(tr: seq<Cam>, ops: seq<Op>, dev: Bus, i: nat)
    requires Calls(tr, ops, dev) && i < |tr|
    ensures (Selected(tr[i]) == MODE_STREAMING <==> tr[i].streaming) <==> !StopLost(tr, ops, dev, i)
  {
    SelectionFollowsStreaming(tr, ops, dev, i);
  }
}
