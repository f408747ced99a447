/** The CEC messages that embed a digital service: what their builders put in a message and their parsers take out. */
module CecMessages {
  import opened CecCodec

  /** cec_msg, as far as these messages use it. */
  datatype Frame = Frame(len: nat, reply: U8, bytes: seq<U8>)

  predicate Sized(f: Frame) { |f.bytes| == MAX_MSG_SIZE }

  /** `bytes` with `part` written at `at`. */
  function Over(bytes: seq<U8>, at: nat, part: seq<U8>): (r: seq<U8>)
    requires at + |part| <= |bytes|
    ensures |r| == |bytes| && r[at..at + |part|] == part && r[..at] == bytes[..at]
            && r[at + |part|..] == bytes[at + |part|..]
  {
    bytes[..at] + part + bytes[at + |part|..]
  }

  datatype Analog = Analog(bcastType: U8, freq: U16, bcastSystem: U8)

  function EncodeAnalog(a: Analog): (b: seq<U8>)
    ensures |b| == 4
  {
    [a.bcastType, High(a.freq), Low(a.freq), a.bcastSystem]
  }

  function DecodeAnalog(b: seq<U8>): Analog
    requires |b| == 4
  {
    Analog(b[0], Word(b[1], b[2]), b[3])
  }

  lemma AnalogRoundTrip(a: Analog)
    ensures DecodeAnalog(EncodeAnalog(a)) == a
  {
    WordParts(a.freq, 0, 0);
  }

  /** cec_op_record_src: the member its type selects is the one that matters. */
  datatype RecordSrc = RecordSrc(kind: U8, digital: Digital, analog: Analog, plug: U8, physAddr: U16)

  predicate SameSource(s: RecordSrc, t: RecordSrc) {
    s.kind == t.kind
    && (s.kind == SRC_DIGITAL ==> SameService(s.digital, t.digital))
    && (s.kind == SRC_ANALOG ==> s.analog == t.analog)
    && (s.kind == SRC_EXT_PLUG ==> s.plug == t.plug)
    && (s.kind == SRC_EXT_PHYS_ADDR ==> s.physAddr == t.physAddr)
  }

  function RecordOperands(s: RecordSrc): (b: seq<U8>)
    ensures |b| <= MAX_MSG_SIZE - 3
  {
    if s.kind == SRC_DIGITAL then Encode(s.digital)
    else if s.kind == SRC_ANALOG then EncodeAnalog(s.analog)
    else if s.kind == SRC_EXT_PLUG then [s.plug]
    else if s.kind == SRC_EXT_PHYS_ADDR then [High(s.physAddr), Low(s.physAddr)]
    else []
  }

  predicate KnownSource(kind: U8) { 1 <= kind <= 5 }

  /** cec_msg_record_on: an unknown source type leaves the bytes and the length as they were. */
  function BuildRecordOn(f: Frame, reply: bool, s: RecordSrc): (r: Frame)
    requires Sized(f)
    ensures Sized(r)
  {
    var answered := f.(reply := if reply then MSG_RECORD_STATUS else 0);
    if !KnownSource(s.kind) then answered else
      answered.(len := 3 + |RecordOperands(s)|, bytes := Over(f.bytes, 1, [MSG_RECORD_ON, s.kind] + RecordOperands(s)))
  }

  function ParseRecordOn(f: Frame, was: RecordSrc): RecordSrc
    requires Sized(f)
  {
    var s, b := was.(kind := f.bytes[2]), f.bytes;
    if s.kind == SRC_DIGITAL then s.(digital := Decode(b[3..10], was.digital))
    else if s.kind == SRC_ANALOG then s.(analog := DecodeAnalog(b[3..7]))
    else if s.kind == SRC_EXT_PLUG then s.(plug := b[3])
    else if s.kind == SRC_EXT_PHYS_ADDR then s.(physAddr := Word(b[3], b[4]))
    else s
  }

  /**
    A parsed Record On names the source it was built from exactly when that source is known and, if
    digital, recoverable.
   */
  lemma RecordOnRoundTripIff(f: Frame, reply: bool, s: RecordSrc, was: RecordSrc)
    requires Sized(f)
    ensures SameSource(ParseRecordOn(BuildRecordOn(f, reply, s), was), s) <==>
            if KnownSource(s.kind) then s.kind == SRC_DIGITAL ==> Recoverable(s.digital)
            else f.bytes[2] == s.kind
  {
    hide Encode, Decode, EncodeAnalog, DecodeAnalog, Recoverable, SameService, High, Low, Word, Over;
    var r := BuildRecordOn(f, reply, s);
    var ops := RecordOperands(s);
    if KnownSource(s.kind) {
      var part := [MSG_RECORD_ON, s.kind] + ops;
      assert r.bytes[1..3 + |ops|] == part;
      assert r.bytes[2] == part[1] && forall i :: 3 <= i < 3 + |ops| ==> r.bytes[i] == part[i - 1];
      assert r.bytes[3..3 + |ops|] == ops;
      RoundTripIff(s.digital, was.digital);
      AnalogRoundTrip(s.analog);
      WordParts(s.physAddr, 0, 0);
    }
  }

  /** Hours and minutes are sent as two decimal digits. */
  function Bcd(v: U8): U8 { ((v / 10) << 4) | (v % 10) }

  function FromBcd(b: U8): U8 { (b >> 4) * 10 + (b & 0xf) }

  lemma BcdRoundTripIff(v: U8)
    ensures FromBcd(Bcd(v)) == v <==> v < 160
  {
  }

  /** Tens in the high half, ones in the low half. */
  function Digits(v: U8): U8 { 16 * (v / 10) + v % 10 }

  lemma BcdDigits(v: U8)
    ensures v < 160 ==> Bcd(v) == Digits(v)
  {
  }

  datatype Timer = Timer(day: U8, month: U8, startHr: U8, startMin: U8, durationHr: U8, durationMin: U8,
                         recordingSeq: U8)

  function TimerOperands(t: Timer): (b: seq<U8>)
    ensures |b| == 7
  {
    [t.day, t.month, Bcd(t.startHr), Bcd(t.startMin), Bcd(t.durationHr), Bcd(t.durationMin), t.recordingSeq]
  }

  function BuildClearDigitalTimer(f: Frame, reply: bool, t: Timer, d: Digital): (r: Frame)
    requires Sized(f)
    ensures Sized(r)
  {
    Frame(16, if reply then MSG_TIMER_CLEARED_STATUS else 0,
          Over(f.bytes, 1, [MSG_CLEAR_DIGITAL_TIMER] + TimerOperands(t) + Encode(d)))
  }

  function ParseClearDigitalTimer(f: Frame, was: Digital): (Timer, Digital)
    requires Sized(f)
  {
    var b := f.bytes;
    (Timer(b[2], b[3], FromBcd(b[4]), FromBcd(b[5]), FromBcd(b[6]), FromBcd(b[7]), b[8]), Decode(b[9..16], was))
  }

  /** The timer comes back exactly when every hour and minute is below 160 and the service is recoverable. */
  lemma ClearDigitalTimerRoundTripIff(f: Frame, reply: bool, t: Timer, d: Digital, was: Digital)
    requires Sized(f)
    ensures var (t', d') := ParseClearDigitalTimer(BuildClearDigitalTimer(f, reply, t, d), was);
            t' == t && SameService(d', d) <==>
            t.startHr < 160 && t.startMin < 160 && t.durationHr < 160 && t.durationMin < 160 && Recoverable(d)
  {
    hide Encode, Decode, Recoverable, SameService, Bcd, FromBcd, Over;
    var part := [MSG_CLEAR_DIGITAL_TIMER] + TimerOperands(t) + Encode(d);
    var r := BuildClearDigitalTimer(f, reply, t, d);
    assert r.bytes[1..16] == part;
    assert forall i :: 1 <= i < 16 ==> r.bytes[i] == part[i - 1];
    assert r.bytes[9..16] == Encode(d);
    RoundTripIff(d, was);
    BcdRoundTripIff(t.startHr);
    BcdRoundTripIff(t.startMin);
    BcdRoundTripIff(t.durationHr);
    BcdRoundTripIff(t.durationMin);
  }

  datatype TunerInfo = TunerInfo(recFlag: U8, displayInfo: U8, isAnalog: U8, digital: Digital, analog: Analog)

  /** Equal as far as the selected member goes; is_analog is a truth value. */
  predicate SameTuner(s: TunerInfo, t: TunerInfo) {
    s.recFlag == t.recFlag && s.displayInfo == t.displayInfo && (s.isAnalog == 0 <==> t.isAnalog == 0)
    && if s.isAnalog == 0 then SameService(s.digital, t.digital) else s.analog == t.analog
  }

  function TunerOperands(t: TunerInfo): (b: seq<U8>)
    ensures |b| == if t.isAnalog == 0 then 7 else 4
  {
    if t.isAnalog == 0 then Encode(t.digital) else EncodeAnalog(t.analog)
  }

  /** cec_msg_tuner_device_status; the reply field is not touched. */
  function BuildTunerStatus(f: Frame, t: TunerInfo): (r: Frame)
    requires Sized(f)
    ensures Sized(r)
  {
    f.(len := 3 + |TunerOperands(t)|,
       bytes := Over(f.bytes, 1, [MSG_TUNER_DEVICE_STATUS, HeadByte(t.recFlag, t.displayInfo)] + TunerOperands(t)))
  }

  /** cec_ops_tuner_device_status: the length alone tells an analog service from a digital one. */
  function ParseTunerStatus(f: Frame, was: TunerInfo): TunerInfo
    requires Sized(f)
  {
    var b := f.bytes;
    var t := was.(isAnalog := if f.len < 10 then 1 else 0, recFlag := MethodOf(b[2]), displayInfo := SystemOf(b[2]));
    if f.len < 10 then t.(analog := DecodeAnalog(b[3..7])) else t.(digital := Decode(b[3..10], was.digital))
  }

  lemma TunerStatusRoundTripIff(f: Frame, t: TunerInfo, was: TunerInfo)
    requires Sized(f)
    ensures SameTuner(ParseTunerStatus(BuildTunerStatus(f, t), was), t) <==>
            HeadFits(t.recFlag, t.displayInfo) && (t.isAnalog == 0 ==> Recoverable(t.digital))
  {
    hide Encode, Decode, EncodeAnalog, DecodeAnalog, Recoverable, SameService, HeadByte, MethodOf, SystemOf, HeadFits,
         Over;
    var r, ops := BuildTunerStatus(f, t), TunerOperands(t);
    var part := [MSG_TUNER_DEVICE_STATUS, HeadByte(t.recFlag, t.displayInfo)] + ops;
    assert r.bytes[1..3 + |ops|] == part;
    assert forall i :: 1 <= i < 3 + |ops| ==> r.bytes[i] == part[i - 1];
    assert r.bytes[3..3 + |ops|] == ops;
    HeadParts(t.recFlag, t.displayInfo);
    RoundTripIff(t.digital, was.digital);
    AnalogRoundTrip(t.analog);
  }

  function BuildSelectDigital(f: Frame, d: Digital): (r: Frame)
    requires Sized(f)
    ensures Sized(r)
  {
    f.(len := 9, bytes := Over(f.bytes, 1, [MSG_SELECT_DIGITAL_SERVICE] + Encode(d)))
  }

  function ParseSelectDigital(f: Frame, was: Digital): Digital
    requires Sized(f)
  {
    Decode(f.bytes[2..9], was)
  }

  lemma SelectDigitalRoundTripIff(f: Frame, d: Digital, was: Digital)
    requires Sized(f)
    ensures SameService(ParseSelectDigital(BuildSelectDigital(f, d), was), d) <==> Recoverable(d)
  {
    hide Encode, Decode, Recoverable, SameService, Over;
    var r, part := BuildSelectDigital(f, d), [MSG_SELECT_DIGITAL_SERVICE] + Encode(d);
    assert r.bytes[1..9] == part;
    assert forall i :: 1 <= i < 9 ==> r.bytes[i] == part[i - 1];
    assert r.bytes[2..9] == Encode(d);
    RoundTripIff(d, was);
  }

  /** A builder touches only its own operands: the header byte and everything from the new length on are as before. */
  predicate KeepsRest(f: Frame, r: Frame) {
    |r.bytes| == |f.bytes| == MAX_MSG_SIZE && 3 <= r.len <= MAX_MSG_SIZE
    && r.bytes[0] == f.bytes[0] && r.bytes[r.len..] == f.bytes[r.len..]
  }

  lemma BuildersKeepRest(f: Frame, reply: bool, s: RecordSrc, t: Timer, d: Digital, u: TunerInfo)
    requires Sized(f)
    ensures KnownSource(s.kind) ==> KeepsRest(f, BuildRecordOn(f, reply, s))
    ensures KeepsRest(f, BuildClearDigitalTimer(f, reply, t, d))
    ensures KeepsRest(f, BuildTunerStatus(f, u))
    ensures KeepsRest(f, BuildSelectDigital(f, d))
  {
    hide Over, RecordOperands, Encode, TunerOperands, TimerOperands;
    OverKeeps(f.bytes, [MSG_RECORD_ON, s.kind] + RecordOperands(s));
    OverKeeps(f.bytes, [MSG_CLEAR_DIGITAL_TIMER] + TimerOperands(t) + Encode(d));
    OverKeeps(f.bytes, [MSG_TUNER_DEVICE_STATUS, HeadByte(u.recFlag, u.displayInfo)] + TunerOperands(u));
    OverKeeps(f.bytes, [MSG_SELECT_DIGITAL_SERVICE] + Encode(d));
  }

  // Where each message puts what: opcode, operands, digital service, total length.

  lemma RecordOnFormat(f: Frame, reply: bool, s: RecordSrc)
    requires Sized(f) && KnownSource(s.kind)
    ensures var r := BuildRecordOn(f, reply, s);
            r.bytes[1] == 0x09 && r.bytes[2] == s.kind && r.reply == (if reply then 0x0a else 0)
            && (s.kind == 1 ==> r.len == 3)
            && (s.kind == 2 ==> r.len == 10 && r.bytes[3..10] == Encode(s.digital))
            && (s.kind == 3 ==> r.len == 7 && r.bytes[3] == s.analog.bcastType
                                && Pair(r.bytes[4], r.bytes[5]) == s.analog.freq && r.bytes[6] == s.analog.bcastSystem)
            && (s.kind == 4 ==> r.len == 4 && r.bytes[3] == s.plug)
            && (s.kind == 5 ==> r.len == 5 && Pair(r.bytes[3], r.bytes[4]) == s.physAddr)
  {
    hide Encode, High, Low, Over, Pair;
    WordNumber(s.analog.freq);
    WordNumber(s.physAddr);
    var ops := RecordOperands(s);
    var part := [MSG_RECORD_ON, s.kind] + ops;
    OverAt(f.bytes, part);
    assert part[2..] == ops;
    assert s.kind == 2 ==> part[2..9] == ops;
  }

  lemma ClearDigitalTimerFormat(f: Frame, reply: bool, t: Timer, d: Digital)
    requires Sized(f)
    ensures var r := BuildClearDigitalTimer(f, reply, t, d);
            r.bytes[1] == 0x99 && r.len == 16 && r.bytes[2] == t.day && r.bytes[3] == t.month
            && (t.startHr < 160 ==> r.bytes[4] == Digits(t.startHr))
               && (t.startMin < 160 ==> r.bytes[5] == Digits(t.startMin))
            && (t.durationHr < 160 ==> r.bytes[6] == Digits(t.durationHr))
            && (t.durationMin < 160 ==> r.bytes[7] == Digits(t.durationMin))
            && r.bytes[8] == t.recordingSeq && r.bytes[9..16] == Encode(d) && r.reply == if reply then 0x43 else 0
  {
    hide Encode, Bcd, Digits, Over;
    BcdDigits(t.startHr);
    BcdDigits(t.startMin);
    BcdDigits(t.durationHr);
    BcdDigits(t.durationMin);
    var part := [MSG_CLEAR_DIGITAL_TIMER] + TimerOperands(t) + Encode(d);
    OverAt(f.bytes, part);
    assert part[8..15] == Encode(d);
  }

  lemma TunerStatusFormat(f: Frame, u: TunerInfo)
    requires Sized(f)
    ensures var r := BuildTunerStatus(f, u);
            r.bytes[1] == 0x07 && r.len == (if u.isAnalog == 0 then 10 else 7)
            && r.reply == f.reply && (u.isAnalog == 0 ==> r.bytes[3..10] == Encode(u.digital))
            && (u.isAnalog != 0 ==> r.bytes[3] == u.analog.bcastType && Pair(r.bytes[4], r.bytes[5]) == u.analog.freq
                                    && r.bytes[6] == u.analog.bcastSystem)
            && (HeadFits(u.recFlag, u.displayInfo) ==> r.bytes[2] == OneSeven(u.recFlag, u.displayInfo))
  {
    hide Encode, High, Low, Pair, HeadByte, HeadFits, OneSeven, Over;
    WordNumber(u.analog.freq);
    var ops := TunerOperands(u);
    var part := [MSG_TUNER_DEVICE_STATUS, HeadByte(u.recFlag, u.displayInfo)] + ops;
    OverAt(f.bytes, part);
    assert part[2..] == ops;
    assert u.isAnalog == 0 ==> part[2..9] == ops;
    if HeadFits(u.recFlag, u.displayInfo) {
      HeadNumber(u.recFlag, u.displayInfo);
    }
  }

  lemma SelectDigitalFormat(f: Frame, d: Digital)
    requires Sized(f)
    ensures var r := BuildSelectDigital(f, d);
            r.bytes[1] == 0x93 && r.len == 9 && r.bytes[2..9] == Encode(d) && r.reply == f.reply
  {
    hide Encode, Over;
    var part := [MSG_SELECT_DIGITAL_SERVICE] + Encode(d);
    OverAt(f.bytes, part);
    assert part[1..8] == Encode(d);
  }

  lemma OverAt(b: seq<U8>, part: seq<U8>)
    requires 1 + |part| <= |b|
    ensures forall i :: 1 <= i <= |part| ==> Over(b, 1, part)[i] == part[i - 1]
    ensures forall i, j :: 1 <= i <= j <= |part| + 1 ==> Over(b, 1, part)[i..j] == part[i - 1..j - 1]
  {
  }

  lemma OverKeeps(b: seq<U8>, part: seq<U8>)
    requires 1 + |part| <= |b|
    ensures Over(b, 1, part)[0] == b[0] && Over(b, 1, part)[1 + |part|..] == b[1 + |part|..]
  {
  }
}
