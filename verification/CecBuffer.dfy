/**
 * A CEC message buffer that the builders fill in place and the parsers read.
 * A structure passed by pointer to a parser is passed in and handed back.
 */
module CecBuffer {
  import opened CecCodec
  import opened CecMessages

  class Message {
    var len: nat
    var reply: U8
    const msg: array<U8>

    ghost predicate Valid() { msg.Length == MAX_MSG_SIZE }

    ghost function View(): Frame
      reads this, msg
    {
      Frame(len, reply, msg[..])
    }

    constructor ()
      ensures Valid() && fresh(msg) && View() == Frame(0, 0, seq(MAX_MSG_SIZE, _ => 0))
    {
      len, reply := 0, 0;
      msg := new U8[MAX_MSG_SIZE](_ => 0);
    }

    /** cec_set_digital_service_id on msg + at. */
    method SetDigitalServiceId(at: nat, d: Digital)
      requires Valid() && at + 7 <= MAX_MSG_SIZE
      modifies msg
      ensures msg[..] == Over(old(msg[..]), at, Encode(d))
    {
      hide High, Low, Atsc, HeadByte, ChannelByte, Encode, Over;
      ghost var before := msg[..];
      msg[at] := HeadByte(d.idMethod, d.system);
      if d.idMethod == BY_CHANNEL {
        PutChannel(at + 1, d);
      } else {
        PutIds(at + 1, d);
      }
      EncodedParts(d);
      SevenBytes(msg[..][at..at + 7], Encode(d));
      Placed(msg[..], before, at, Encode(d));
    }

    method PutChannel(p: nat, d: Digital)
      requires Valid() && p + 6 <= MAX_MSG_SIZE
      modifies msg
      ensures msg[p] == ChannelByte(Low(d.word0), d.word1) && msg[p + 1] == Low(d.word1)
      ensures msg[p + 2] == High(d.word2) && msg[p + 3] == Low(d.word2) && msg[p + 4] == 0 && msg[p + 5] == 0
      ensures forall i :: 0 <= i < p || p + 6 <= i < MAX_MSG_SIZE ==> msg[i] == old(msg[i])
    {
      hide High, Low, ChannelByte;
      msg[p], msg[p + 1] := ChannelByte(Low(d.word0), d.word1), Low(d.word1);
      PutWord(p + 2, d.word2);
      msg[p + 4], msg[p + 5] := 0, 0;
    }

    method PutIds(p: nat, d: Digital)
      requires Valid() && p + 6 <= MAX_MSG_SIZE
      modifies msg
      ensures msg[p] == High(d.word0) && msg[p + 1] == Low(d.word0) && msg[p + 2] == High(d.word1)
              && msg[p + 3] == Low(d.word1)
      ensures msg[p + 4] == if Atsc(d.system) then 0 else High(d.word2)
      ensures msg[p + 5] == if Atsc(d.system) then 0 else Low(d.word2)
      ensures forall i :: 0 <= i < p || p + 6 <= i < MAX_MSG_SIZE ==> msg[i] == old(msg[i])
    {
      hide High, Low, Atsc;
      PutWord(p, d.word0);
      PutWord(p + 2, d.word1);
      if Atsc(d.system) {
        msg[p + 4], msg[p + 5] := 0, 0;
      } else {
        PutWord(p + 4, d.word2);
      }
    }

    /** A 16-bit value, high byte first. */
    method PutWord(at: nat, w: U16)
      requires Valid() && at + 2 <= MAX_MSG_SIZE
      modifies msg
      ensures msg[at] == High(w) && msg[at + 1] == Low(w)
      ensures forall i :: 0 <= i < MAX_MSG_SIZE && i != at && i != at + 1 ==> msg[i] == old(msg[i])
    {
      msg[at] := High(w);
      msg[at + 1] := Low(w);
    }

    method GetWord(at: nat) returns (w: U16)
      requires Valid() && at + 2 <= MAX_MSG_SIZE
      ensures w == Word(msg[at], msg[at + 1])
      ensures High(w) == msg[at] && Low(w) == msg[at + 1]
    {
      w := (msg[at] as U16 << 8) | msg[at + 1] as U16;
    }

    /** cec_get_digital_service_id on msg + at. */
    method GetDigitalServiceId(at: nat, was: Digital) returns (d: Digital)
      requires Valid() && at + 7 <= MAX_MSG_SIZE
      ensures d == Decode(msg[at..at + 7], was)
    {
      hide High, Low, Word, MethodOf, SystemOf, FmtOf, MajorOf;
      d := was.(idMethod := MethodOf(msg[at]), system := SystemOf(msg[at]));
      if d.idMethod == BY_CHANNEL {
        var minor := GetWord(at + 3);
        d := d.(word0 := Word(High(d.word0), FmtOf(msg[at + 1])),
                word1 := MajorOf(msg[at + 1], msg[at + 2]), word2 := minor);
        return;
      }
      var transport := GetWord(at + 1);
      var service := GetWord(at + 3);
      var network := GetWord(at + 5);
      d := d.(word0 := transport, word1 := service, word2 := network);
    }

    method SetAnalog(at: nat, a: Analog)
      requires Valid() && at + 4 <= MAX_MSG_SIZE
      modifies msg
      ensures msg[..] == Over(old(msg[..]), at, EncodeAnalog(a))
    {
      msg[at] := a.bcastType;
      PutWord(at + 1, a.freq);
      msg[at + 3] := a.bcastSystem;
      Placed(msg[..], old(msg[..]), at, EncodeAnalog(a));
    }

    method GetAnalog(at: nat) returns (a: Analog)
      requires Valid() && at + 4 <= MAX_MSG_SIZE
      ensures a == DecodeAnalog(msg[at..at + 4])
    {
      var freq := GetWord(at + 1);
      a := Analog(msg[at], freq, msg[at + 3]);
    }

    /** cec_msg_record_on_own. */
    method RecordOnOwn()
      requires Valid()
      modifies this, msg
      ensures View() == old(View()).(len := 3, bytes := Over(old(msg[..]), 1, [MSG_RECORD_ON, SRC_OWN] + []))
    {
      hide Over;
      ghost var before := msg[..];
      len := 3;
      msg[1], msg[2] := MSG_RECORD_ON, SRC_OWN;
      Assemble(msg[..], before, MSG_RECORD_ON, SRC_OWN, []);
    }

    /** cec_msg_record_on_digital. */
    method RecordOnDigital(d: Digital)
      requires Valid()
      modifies this, msg
      ensures View() == old(View()).(len := 10,
                                     bytes := Over(old(msg[..]), 1, [MSG_RECORD_ON, SRC_DIGITAL] + Encode(d)))
    {
      hide Encode, Over;
      ghost var before := msg[..];
      len := 10;
      msg[1], msg[2] := MSG_RECORD_ON, SRC_DIGITAL;
      SetDigitalServiceId(3, d);
      Assemble(msg[..], before, MSG_RECORD_ON, SRC_DIGITAL, Encode(d));
    }

    /** cec_msg_record_on_analog. */
    method RecordOnAnalog(a: Analog)
      requires Valid()
      modifies this, msg
      ensures View() == old(View()).(len := 7,
                                     bytes := Over(old(msg[..]), 1, [MSG_RECORD_ON, SRC_ANALOG] + EncodeAnalog(a)))
    {
      hide EncodeAnalog, Over;
      ghost var before := msg[..];
      len := 7;
      msg[1], msg[2] := MSG_RECORD_ON, SRC_ANALOG;
      SetAnalog(3, a);
      Assemble(msg[..], before, MSG_RECORD_ON, SRC_ANALOG, EncodeAnalog(a));
    }

    /** cec_msg_record_on_plug. */
    method RecordOnPlug(plug: U8)
      requires Valid()
      modifies this, msg
      ensures View() == old(View()).(len := 4, bytes := Over(old(msg[..]), 1, [MSG_RECORD_ON, SRC_EXT_PLUG] + [plug]))
    {
      hide Over;
      ghost var before := msg[..];
      len := 4;
      msg[1], msg[2] := MSG_RECORD_ON, SRC_EXT_PLUG;
      msg[3] := plug;
      Assemble(msg[..], before, MSG_RECORD_ON, SRC_EXT_PLUG, [plug]);
    }

    /** cec_msg_record_on_phys_addr. */
    method RecordOnPhysAddr(physAddr: U16)
      requires Valid()
      modifies this, msg
      ensures var ops := [High(physAddr), Low(physAddr)];
              View() == old(View()).(len := 5, bytes := Over(old(msg[..]), 1, [MSG_RECORD_ON, SRC_EXT_PHYS_ADDR] + ops))
    {
      hide High, Low, Over;
      ghost var before := msg[..];
      len := 5;
      msg[1], msg[2] := MSG_RECORD_ON, SRC_EXT_PHYS_ADDR;
      PutWord(3, physAddr);
      Assemble(msg[..], before, MSG_RECORD_ON, SRC_EXT_PHYS_ADDR, [High(physAddr), Low(physAddr)]);
    }

    /** cec_msg_record_on. */
    method RecordOn(wantsReply: bool, s: RecordSrc)
      requires Valid()
      modifies this, msg
      ensures View() == BuildRecordOn(old(View()), wantsReply, s)
    {
      hide Encode, EncodeAnalog, High, Low, Over;
      if s.kind == SRC_OWN {
        RecordOnOwn();
      } else if s.kind == SRC_DIGITAL {
        RecordOnDigital(s.digital);
      } else if s.kind == SRC_ANALOG {
        RecordOnAnalog(s.analog);
      } else if s.kind == SRC_EXT_PLUG {
        RecordOnPlug(s.plug);
      } else if s.kind == SRC_EXT_PHYS_ADDR {
        RecordOnPhysAddr(s.physAddr);
      }
      reply := if wantsReply then MSG_RECORD_STATUS else 0;
    }

    /** cec_ops_record_on. */
    method OpsRecordOn(was: RecordSrc) returns (s: RecordSrc)
      requires Valid()
      ensures s == ParseRecordOn(View(), was)
    {
      hide Decode, DecodeAnalog, Word;
      s := was.(kind := msg[2]);
      if s.kind == SRC_DIGITAL {
        var d := GetDigitalServiceId(3, s.digital);
        s := s.(digital := d);
      } else if s.kind == SRC_ANALOG {
        var a := GetAnalog(3);
        s := s.(analog := a);
      } else if s.kind == SRC_EXT_PLUG {
        s := s.(plug := msg[3]);
      } else if s.kind == SRC_EXT_PHYS_ADDR {
        var a := GetWord(3);
        s := s.(physAddr := a);
      }
    }

    /** cec_msg_clear_digital_timer. */
    method ClearDigitalTimer(wantsReply: bool, t: Timer, d: Digital)
      requires Valid()
      modifies this, msg
      ensures View() == BuildClearDigitalTimer(old(View()), wantsReply, t, d)
    {
      hide Encode, TimerOperands, Over;
      len := 16;
      reply := if wantsReply then MSG_TIMER_CLEARED_STATUS else 0;
      PutTimer(t);
      SetDigitalServiceId(9, d);
      OverTwice(old(msg[..]), 1, [MSG_CLEAR_DIGITAL_TIMER] + TimerOperands(t), Encode(d));
    }

    /** The opcode, date and times of a timer message; hours and minutes in BCD. */
    method PutTimer(t: Timer)
      requires Valid()
      modifies msg
      ensures msg[..] == Over(old(msg[..]), 1, [MSG_CLEAR_DIGITAL_TIMER] + TimerOperands(t))
    {
      hide Bcd, TimerOperands, Over;
      msg[1] := MSG_CLEAR_DIGITAL_TIMER;
      msg[2], msg[3] := t.day, t.month;
      msg[4], msg[5] := Bcd(t.startHr), Bcd(t.startMin);
      msg[6], msg[7] := Bcd(t.durationHr), Bcd(t.durationMin);
      msg[8] := t.recordingSeq;
      TimerPlaced(msg[..], t);
      assert msg[1..9] == [msg[1]] + msg[..][2..9];
      Placed(msg[..], old(msg[..]), 1, [MSG_CLEAR_DIGITAL_TIMER] + TimerOperands(t));
    }

    /** cec_ops_clear_digital_timer. */
    method OpsClearDigitalTimer(was: Digital) returns (t: Timer, d: Digital)
      requires Valid()
      ensures (t, d) == ParseClearDigitalTimer(View(), was)
    {
      hide Decode, FromBcd;
      t := Timer(msg[2], msg[3], FromBcd(msg[4]), FromBcd(msg[5]), FromBcd(msg[6]), FromBcd(msg[7]), msg[8]);
      d := GetDigitalServiceId(9, was);
    }

    /** cec_msg_tuner_device_status. */
    method TunerDeviceStatus(t: TunerInfo)
      requires Valid()
      modifies this, msg
      ensures View() == BuildTunerStatus(old(View()), t)
    {
      hide Encode, EncodeAnalog, HeadByte;
      ghost var before, ops := msg[..], TunerOperands(t);
      msg[1], msg[2] := MSG_TUNER_DEVICE_STATUS, HeadByte(t.recFlag, t.displayInfo);
      if t.isAnalog != 0 {
        len := 7;
        SetAnalog(3, t.analog);
      } else {
        len := 10;
        SetDigitalServiceId(3, t.digital);
      }
      Assemble(msg[..], before, MSG_TUNER_DEVICE_STATUS, HeadByte(t.recFlag, t.displayInfo), ops);
    }

    /** cec_ops_tuner_device_status. */
    method OpsTunerDeviceStatus(was: TunerInfo) returns (t: TunerInfo)
      requires Valid()
      ensures t == ParseTunerStatus(View(), was)
    {
      hide Decode, DecodeAnalog, MethodOf, SystemOf;
      t := was.(isAnalog := if len < 10 then 1 else 0);
      t := t.(recFlag := MethodOf(msg[2]), displayInfo := SystemOf(msg[2]));
      if t.isAnalog != 0 {
        var a := GetAnalog(3);
        t := t.(analog := a);
        return;
      }
      var d := GetDigitalServiceId(3, t.digital);
      t := t.(digital := d);
    }

    /** cec_msg_select_digital_service. */
    method SelectDigitalService(d: Digital)
      requires Valid()
      modifies this, msg
      ensures View() == BuildSelectDigital(old(View()), d)
    {
      hide Encode;
      len := 9;
      msg[1] := MSG_SELECT_DIGITAL_SERVICE;
      SetDigitalServiceId(2, d);
      assert msg[..2] == old(msg[..1]) + [MSG_SELECT_DIGITAL_SERVICE];
    }

    /** cec_ops_select_digital_service. */
    method OpsSelectDigitalService(was: Digital) returns (d: Digital)
      requires Valid()
      ensures d == ParseSelectDigital(View(), was)
    {
      d := GetDigitalServiceId(2, was);
    }
  }

  lemma Placed(now: seq<U8>, before: seq<U8>, at: nat, part: seq<U8>)
    requires |now| == |before| && at + |part| <= |now| && now[at..at + |part|] == part
    requires forall i :: 0 <= i < at || at + |part| <= i < |now| ==> now[i] == before[i]
    ensures now == Over(before, at, part)
  {
    assert now == now[..at] + now[at..at + |part|] + now[at + |part|..];
  }

  lemma TimerPlaced(b: seq<U8>, t: Timer)
    requires |b| == MAX_MSG_SIZE && b[2] == t.day && b[3] == t.month && b[4] == Bcd(t.startHr)
             && b[5] == Bcd(t.startMin)
    requires b[6] == Bcd(t.durationHr) && b[7] == Bcd(t.durationMin) && b[8] == t.recordingSeq
    ensures b[2..9] == TimerOperands(t)
  {
    hide Bcd;
  }

  lemma OverTwice(b: seq<U8>, at: nat, p: seq<U8>, q: seq<U8>)
    requires at + |p| + |q| <= |b|
    ensures Over(Over(b, at, p), at + |p|, q) == Over(b, at, p + q)
  {
  }

  lemma Assemble(now: seq<U8>, before: seq<U8>, opcode: U8, operand: U8, ops: seq<U8>)
    requires |now| == |before| && 3 + |ops| <= |now|
    requires now[..1] == before[..1] && now[1] == opcode && now[2] == operand && now[3..3 + |ops|] == ops
    requires now[3 + |ops|..] == before[3 + |ops|..]
    ensures now == Over(before, 1, [opcode, operand] + ops)
  {
    assert now == now[..1] + [now[1], now[2]] + now[3..3 + |ops|] + now[3 + |ops|..];
  }
}
