/**
 * The HDMI CEC operands that embed a digital service identifier, and the four
 * messages that carry one: Record On, Clear Digital Timer, Tuner Device
 * Status and Select Digital Service.
 */
module CecCodec {

  type U8 = bv8
  type U16 = bv16

  const MAX_MSG_SIZE := 16

  const MSG_RECORD_ON: U8 := 0x09
  const MSG_RECORD_STATUS: U8 := 0x0a
  const MSG_CLEAR_DIGITAL_TIMER: U8 := 0x99
  const MSG_TIMER_CLEARED_STATUS: U8 := 0x43
  const MSG_TUNER_DEVICE_STATUS: U8 := 0x07
  const MSG_SELECT_DIGITAL_SERVICE: U8 := 0x93

  const SRC_OWN: U8 := 1
  const SRC_DIGITAL: U8 := 2
  const SRC_ANALOG: U8 := 3
  const SRC_EXT_PLUG: U8 := 4
  const SRC_EXT_PHYS_ADDR: U8 := 5

  const BY_CHANNEL: U8 := 1

  /**
   * cec_op_digital_service_id. The union is kept as the three 16-bit words its
   * members share: ARIB, ATSC and DVB lay their identifiers over words 0, 1
   * and 2, a channel its format over the low byte of word 0 and its major and
   * minor numbers over words 1 and 2.
   */
  datatype Digital = Digital(idMethod: U8, system: U8, word0: U16, word1: U16, word2: U16)

  function High(w: U16): U8 { (w >> 8) as U8 }

  function Low(w: U16): U8 { (w & 0xff) as U8 }

  function Word(high: U8, low: U8): U16 { (high as U16 << 8) | low as U16 }

  /** channel_number_fmt. */
  function Fmt(d: Digital): U8 { Low(d.word0) }

  /** The cases of the builder's switch over the broadcast system. */
  predicate Atsc(system: U8) {
    system == 0x01 || system == 0x10 || system == 0x11 || system == 0x12
  }

  // The packed bytes, as the builder writes them and the parser reads them.

  function HeadByte(m: U8, system: U8): U8 { (m << 7) | system }

  function MethodOf(head: U8): U8 { head >> 7 }

  function SystemOf(head: U8): U8 { head & 0x7f }

  function ChannelByte(fmt: U8, major: U16): U8 { (fmt << 2) | High(major) }

  function FmtOf(b: U8): U8 { b >> 2 }

  function MajorOf(b: U8, low: U8): U16 { ((b as U16 & 3) << 6) | low as U16 }

  /** The seven bytes cec_set_digital_service_id writes. */
  function Encode(d: Digital): (b: seq<U8>)
    ensures |b| == 7
  {
    var head := HeadByte(d.idMethod, d.system);
    if d.idMethod == BY_CHANNEL then
      [head, ChannelByte(Fmt(d), d.word1), Low(d.word1), High(d.word2), Low(d.word2), 0, 0]
    else if Atsc(d.system) then
      [head, High(d.word0), Low(d.word0), High(d.word1), Low(d.word1), 0, 0]
    else
      [head, High(d.word0), Low(d.word0), High(d.word1), Low(d.word1), High(d.word2), Low(d.word2)]
  }

  /** What cec_get_digital_service_id leaves in a structure that held `was`. */
  function Decode(b: seq<U8>, was: Digital): Digital
    requires |b| == 7
  {
    if MethodOf(b[0]) == BY_CHANNEL then
      Digital(MethodOf(b[0]), SystemOf(b[0]), Word(High(was.word0), FmtOf(b[1])), MajorOf(b[1], b[2]), Word(b[3], b[4]))
    else
      Digital(MethodOf(b[0]), SystemOf(b[0]), Word(b[1], b[2]), Word(b[3], b[4]), Word(b[5], b[6]))
  }

  /**
   * By the codes of the standard: ARIB (0x00, 0x08 to 0x0a) and DVB services
   * (0x02, 0x18 to 0x1b) have an original network id, ATSC services do not.
   */
  predicate HasNetworkId(system: U8) { system != 0x01 && !(0x10 <= system <= 0x12) }

  lemma SystemsByCode(system: U8)
    ensures Atsc(system) <==> !HasNetworkId(system)
  {
  }

  /** The two structures name the same service: the members their method and system select agree. */
  predicate SameService(d: Digital, e: Digital) {
    d.idMethod == e.idMethod && d.system == e.system &&
    if d.idMethod == BY_CHANNEL then Fmt(d) == Fmt(e) && d.word1 == e.word1 && d.word2 == e.word2
    else d.word0 == e.word0 && d.word1 == e.word1 && (HasNetworkId(d.system) ==> d.word2 == e.word2)
  }

  /** A major number with bits 8 and 9 folded onto bits 6 and 7. */
  function Folded(major: U16): U16 { (major & 0xff) | ((major >> 8) << 6) }

  predicate HeadFits(m: U8, system: U8) { m < 2 && system < 128 }

  predicate ChannelFits(fmt: U8, major: U16, limit: U16) { fmt < 64 && major < limit }

  /** The operand widths of the standard: a 1-bit method, a 7-bit system, a 6-bit format, a 10-bit major. */
  predicate InStandard(d: Digital) {
    HeadFits(d.idMethod, d.system) && (d.idMethod == BY_CHANNEL ==> ChannelFits(Fmt(d), d.word1, 1024))
  }

  /** What survives the parser: its shift by 6 instead of 8 leaves only eight bits of the major. */
  predicate Recoverable(d: Digital) {
    HeadFits(d.idMethod, d.system) && (d.idMethod == BY_CHANNEL ==> ChannelFits(Fmt(d), d.word1, 256))
  }

  // Facts about single bytes and words.

  lemma WordParts(w: U16, h: U8, l: U8)
    ensures Word(High(w), Low(w)) == w && High(Word(h, l)) == h && Low(Word(h, l)) == l
  {
  }

  lemma SameParts(w: U16, v: U16)
    ensures High(w) == High(v) && Low(w) == Low(v) <==> w == v
  {
  }

  lemma HeadParts(m: U8, s: U8)
    ensures MethodOf(HeadByte(m, s)) == m && SystemOf(HeadByte(m, s)) == s <==> HeadFits(m, s)
  {
  }

  lemma HeadRebuilt(x: U8)
    ensures HeadByte(MethodOf(x), SystemOf(x)) == x && (MethodOf(x) == BY_CHANNEL <==> x >= 0x80)
    ensures x < 0x80 ==> SystemOf(x) == x
  {
  }

  lemma ChannelParts(fmt: U8, major: U16)
    ensures var b := ChannelByte(fmt, major);
            FmtOf(b) == fmt && MajorOf(b, Low(major)) == major <==> ChannelFits(fmt, major, 256)
  {
  }

  lemma PackedChannel(f: U8, m: U16, g: U8, n: U16)
    requires ChannelFits(f, m, 1024) && ChannelFits(g, n, 1024)
    ensures ChannelByte(f, m) == ChannelByte(g, n) && Low(m) == Low(n) <==> f == g && m == n
  {
  }

  lemma FoldedMajor(fmt: U8, major: U16)
    requires ChannelFits(fmt, major, 1024)
    ensures var b := ChannelByte(fmt, major);
            FmtOf(b) == fmt && MajorOf(b, Low(major)) == Folded(major)
            && (MajorOf(b, Low(major)) == major <==> major < 256)
  {
  }

  lemma ChannelRebuilt(x: U8, y: U8)
    ensures ChannelByte(FmtOf(x), MajorOf(x, y)) == x && Low(MajorOf(x, y)) == y <==> x & 3 == 0
  {
  }

  // Encode and Decode, byte by byte.

  lemma EncodedParts(d: Digital)
    ensures var b := Encode(d);
            b[0] == HeadByte(d.idMethod, d.system)
            && if d.idMethod == BY_CHANNEL then
                 b[1] == ChannelByte(Fmt(d), d.word1) && b[2] == Low(d.word1) && b[3] == High(d.word2)
                 && b[4] == Low(d.word2)
                 && b[5] == 0 && b[6] == 0
               else
                 b[1] == High(d.word0) && b[2] == Low(d.word0) && b[3] == High(d.word1) && b[4] == Low(d.word1)
                 && b[5] == (if Atsc(d.system) then 0 else High(d.word2))
                 && b[6] == if Atsc(d.system) then 0 else Low(d.word2)
  {
    hide High, Low, HeadByte, ChannelByte, Atsc;
  }

  lemma DecodedParts(b: seq<U8>, was: Digital)
    requires |b| == 7
    ensures var d := Decode(b, was);
            d.idMethod == MethodOf(b[0]) && d.system == SystemOf(b[0])
            && if MethodOf(b[0]) == BY_CHANNEL then
                 Fmt(d) == FmtOf(b[1]) && d.word1 == MajorOf(b[1], b[2]) && High(d.word2) == b[3]
                 && Low(d.word2) == b[4]
               else
                 High(d.word0) == b[1] && Low(d.word0) == b[2] && High(d.word1) == b[3] && Low(d.word1) == b[4]
                 && High(d.word2) == b[5] && Low(d.word2) == b[6]
  {
    hide High, Low, Word, MethodOf, SystemOf, FmtOf, MajorOf;
    WordParts(0, b[1], b[2]);
    WordParts(0, b[3], b[4]);
    WordParts(0, b[5], b[6]);
    WordParts(0, High(was.word0), FmtOf(b[1]));
  }

  lemma SevenBytes(e: seq<U8>, b: seq<U8>)
    requires |e| == |b| == 7
    ensures e == b <==>
            e[0] == b[0] && e[1] == b[1] && e[2] == b[2] && e[3] == b[3] && e[4] == b[4] && e[5] == b[5] && e[6] == b[6]
  {
  }

  // The round trips.

  /** Parsing undoes building exactly on the recoverable services, whatever the target held before. */
  lemma RoundTripIff(d: Digital, was: Digital)
    ensures SameService(Decode(Encode(d), was), d) <==> Recoverable(d)
  {
    hide High, Low, Word, Atsc, HasNetworkId, Encode, Decode, HeadByte, MethodOf, SystemOf, ChannelByte, FmtOf,
         MajorOf, HeadFits,
         ChannelFits;
    SystemsByCode(d.system);
    EncodedParts(d);
    DecodedParts(Encode(d), was);
    HeadParts(d.idMethod, d.system);
    ChannelParts(Fmt(d), d.word1);
    var e := Decode(Encode(d), was);
    SameParts(e.word0, d.word0);
    SameParts(e.word1, d.word1);
    SameParts(e.word2, d.word2);
  }

  /** No information is lost by building: in-standard services with the same bytes are the same service. */
  lemma EncodeIsInjective(d: Digital, e: Digital)
    requires InStandard(d) && InStandard(e) && Encode(d) == Encode(e)
    ensures SameService(d, e)
  {
    hide High, Low, Word, Atsc, HasNetworkId, Encode, HeadByte, MethodOf, SystemOf, ChannelByte, HeadFits, ChannelFits;
    SystemsByCode(d.system);
    HeadParts(d.idMethod, d.system);
    HeadParts(e.idMethod, e.system);
    EncodedParts(d);
    EncodedParts(e);
    if d.idMethod == BY_CHANNEL {
      PackedChannel(Fmt(d), d.word1, Fmt(e), e.word1);
    }
    SameParts(d.word0, e.word0);
    SameParts(d.word1, e.word1);
    SameParts(d.word2, e.word2);
  }

  /** How the parser reads an in-standard channel: bits 8 and 9 of the major are folded onto bits 6 and 7. */
  lemma MajorIsFolded(d: Digital, was: Digital)
    requires InStandard(d) && d.idMethod == BY_CHANNEL
    ensures var e := Decode(Encode(d), was);
            Fmt(e) == Fmt(d) && e.word2 == d.word2 && e.system == d.system
            && e.word1 == Folded(d.word1)
            && (e.word1 == d.word1 <==> d.word1 < 256)
  {
    hide High, Low, Word, Atsc, HasNetworkId, Encode, Decode, HeadByte, MethodOf, SystemOf, ChannelByte, FmtOf,
         MajorOf, HeadFits,
         ChannelFits, Folded;
    EncodedParts(d);
    DecodedParts(Encode(d), was);
    HeadParts(d.idMethod, d.system);
    FoldedMajor(Fmt(d), d.word1);
    SameParts(Decode(Encode(d), was).word2, d.word2);
  }

  /** Two channels of the standard that the parser confuses. */
  lemma ChannelsConfused(was: Digital)
    ensures var d, e := Digital(1, 0x18, 2, 256, 5), Digital(1, 0x18, 2, 64, 5);
            InStandard(d) && InStandard(e) && !SameService(d, e) && Encode(d) != Encode(e)
            && Decode(Encode(d), was) == Decode(Encode(e), was)
  {
    assert Encode(Digital(1, 0x18, 2, 256, 5)) == [0x98, 9, 0, 0, 5, 0, 0];
    assert Encode(Digital(1, 0x18, 2, 64, 5)) == [0x98, 8, 64, 0, 5, 0, 0];
  }

  /** Building undoes parsing exactly on the byte strings whose reserved bits are clear. */
  lemma ParseThenBuildIff(b: seq<U8>, was: Digital)
    requires |b| == 7
    ensures Encode(Decode(b, was)) == b <==>
            if b[0] >= 0x80 then b[1] & 3 == 0 && b[5] == 0 && b[6] == 0
            else !HasNetworkId(b[0]) ==> b[5] == 0 && b[6] == 0
  {
    hide High, Low, Word, Atsc, HasNetworkId, Encode, Decode, HeadByte, MethodOf, SystemOf, ChannelByte, FmtOf, MajorOf;
    SystemsByCode(b[0]);
    var d := Decode(b, was);
    EncodedParts(d);
    DecodedParts(b, was);
    HeadRebuilt(b[0]);
    ChannelRebuilt(b[1], b[2]);
    SevenBytes(Encode(d), b);
  }

  // The wire format in numbers.

  /** A big-endian pair of bytes. */
  function Pair(high: U8, low: U8): U16 { 256 * high as U16 + low as U16 }

  /** A 10-bit number under a 6-bit one. */
  function SixTen(six: U8, ten: U16): U16 { 1024 * six as U16 + ten }

  /** A 7-bit number under a single bit. */
  function OneSeven(one: U8, seven: U8): U8 { 128 * one + seven }

  lemma WordNumber(w: U16)
    ensures Pair(High(w), Low(w)) == w
  {
  }

  lemma HeadNumber(m: U8, s: U8)
    requires HeadFits(m, s)
    ensures HeadByte(m, s) == OneSeven(m, s)
  {
  }

  lemma ChannelNumber(fmt: U8, major: U16)
    requires ChannelFits(fmt, major, 1024)
    ensures Pair(ChannelByte(fmt, major), Low(major)) == SixTen(fmt, major)
  {
  }

  lemma ZeroPair()
    ensures Pair(0, 0) == 0
  {
  }

  /**
   * What the seven bytes of an in-standard service say: method and system in
   * the first, then either a 6-bit format over a 10-bit major and the minor,
   * or the identifiers, high byte first; what is not used is zero.
   */
  lemma EncodedNumbers(d: Digital)
    requires InStandard(d)
    ensures var b := Encode(d);
            b[0] == OneSeven(d.idMethod, d.system)
            && if d.idMethod == BY_CHANNEL then
                 Pair(b[1], b[2]) == SixTen(Fmt(d), d.word1) && Pair(b[3], b[4]) == d.word2 && Pair(b[5], b[6]) == 0
               else
                 Pair(b[1], b[2]) == d.word0 && Pair(b[3], b[4]) == d.word1
                 && Pair(b[5], b[6]) == if HasNetworkId(d.system) then d.word2 else 0
  {
    hide High, Low, Atsc, HasNetworkId, Encode, HeadByte, ChannelByte, HeadFits, ChannelFits, Pair, SixTen, OneSeven;
    SystemsByCode(d.system);
    EncodedParts(d);
    HeadNumber(d.idMethod, d.system);
    if d.idMethod == BY_CHANNEL {
      ChannelNumber(Fmt(d), d.word1);
    }
    ZeroPair();
    WordNumber(d.word0);
    WordNumber(d.word1);
    WordNumber(d.word2);
  }
}
