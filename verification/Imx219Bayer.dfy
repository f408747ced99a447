/** The colour order of the codes the IMX219 driver reports, against the orientation of the image. */
module Imx219Bayer {
  import opened Imx219Tables
  import opened Imx219Sensor
  import opened Imx219Theorems
  import opened Imx219Runs

  datatype Colour = Red | Green | Blue

  /** The colours of a 2x2 block of pixels. */
  datatype Block = Block(topLeft: Colour, topRight: Colour, bottomLeft: Colour, bottomRight: Colour)

  const RGGB := Block(Red, Green, Green, Blue)

  function MirrorColumns(b: Block): Block { Block(b.topRight, b.topLeft, b.bottomRight, b.bottomLeft) }

  function MirrorRows(b: Block): Block { Block(b.bottomLeft, b.bottomRight, b.topLeft, b.topRight) }

  datatype Name = Other | Raw(bits: nat, order: Block)

  /** What the media bus codes stand for: SRGGB, SGRBG, SGBRG and SBGGR at 10 bits and at 8. */
  function NameOf(code: nat): Name {
    match code
    case 0x300f => Raw(10, RGGB)
    case 0x300a => Raw(10, Block(Green, Red, Blue, Green))
    case 0x300e => Raw(10, Block(Green, Blue, Red, Green))
    case 0x3007 => Raw(10, Block(Blue, Green, Green, Red))
    case 0x3014 => Raw(8, RGGB)
    case 0x3002 => Raw(8, Block(Green, Red, Blue, Green))
    case 0x3013 => Raw(8, Block(Green, Blue, Red, Green))
    case 0x3001 => Raw(8, Block(Blue, Green, Green, Red))
    case _ => Other
  }

  /** RGGB as the flips turn it: mirrored columns with hflip, mirrored rows with vflip. */
  function Oriented(hflip: bool, vflip: bool): Block {
    var columns := if hflip then MirrorColumns(RGGB) else RGGB;
    if vflip then MirrorRows(columns) else columns
  }

  lemma TableNames(k: nat)
    requires k < 8
    ensures NameOf(Codes()[k]) == Raw(if k < 4 then 10 else 8, Oriented(k % 2 == 1, k / 2 % 2 == 1))
    ensures Depth(Codes()[k]) == NameOf(Codes()[k]).bits
  {
    hide Codes, Depth, Oriented, NameOf;
    DepthOfIndex(k);
    TableCodes();
    Orientations();
    match k {
      case 0 =>
      case 1 =>
      case 2 =>
      case 3 =>
      case 4 =>
      case 5 =>
      case 6 =>
      case 7 =>
    }
  }

  lemma Orientations()
    ensures Oriented(false, false) == RGGB && Oriented(true, false) == Block(Green, Red, Blue, Green)
    ensures Oriented(false, true) == Block(Green, Blue, Red, Green)
            && Oriented(true, true) == Block(Blue, Green, Green, Red)
  {
  }

  lemma TableCodes()
    ensures var s := Codes();
            && NameOf(s[0]) == Raw(10, RGGB) && NameOf(s[1]) == Raw(10, Block(Green, Red, Blue, Green))
            && NameOf(s[2]) == Raw(10, Block(Green, Blue, Red, Green))
               && NameOf(s[3]) == Raw(10, Block(Blue, Green, Green, Red))
            && NameOf(s[4]) == Raw(8, RGGB) && NameOf(s[5]) == Raw(8, Block(Green, Red, Blue, Green))
            && NameOf(s[6]) == Raw(8, Block(Green, Blue, Red, Green))
               && NameOf(s[7]) == Raw(8, Block(Blue, Green, Green, Red))
  {
  }

  lemma NamedIsTabled(code: nat)
    ensures NameOf(code).Raw? <==> code in Codes()
  {
    var s := Codes();
    assert code in s <==> code == s[0] || code == s[1] || code == s[2] || code == s[3]
                          || code == s[4] || code == s[5] || code == s[6] || code == s[7];
  }

  /**
    For every code asked for and every setting of the flips, the code reported has the colour
    order of the image as it is turned, and the bits of the code asked for, 10 if that is unknown.
   */
  lemma ReportedOrderFollowsFlips(c: Cam, code: nat)
    ensures NameOf(FormatCode(c, code)) ==
            Raw(if NameOf(code).Raw? then NameOf(code).bits else 10, Oriented(c.hflip.val != 0, c.vflip.val != 0))
  {
    hide CodeIndexFrom, Depth;
    NamedIsTabled(code);
    var i := CodeIndex(code);
    TableNames(i);
    var k := FlippedIndex(i, c.hflip.val != 0, c.vflip.val != 0);
    assert k % 4 == (if c.vflip.val != 0 then 2 else 0) + (if c.hflip.val != 0 then 1 else 0);
    TableNames(k);
    UnknownIsFirst(code);
  }

  lemma UnknownIsFirst(code: nat)
    ensures code !in Codes() ==> CodeIndex(code) == 0
  {
    assert Codes()[0..] == Codes();
  }

  /** The depth written to the frame-format registers is the one the code's name says. */
  lemma DepthIsNamed(code: nat)
    ensures Depth(code) == if NameOf(code).Raw? then NameOf(code).bits else 0
  {
    var s := Codes();
    NamedIsTabled(code);
    if code in s {
      var k :| 0 <= k < 8 && s[k] == code;
      TableNames(k);
    } else {
      assert forall x :: x in s[4..] || x in s[..4] ==> x in s;
    }
  }

  /** The code a format change stores is in the order of the image and of the bits asked for. */
  lemma StoredOrderFollowsFlips(c: Cam, dev: Bus, code: nat, nearest: nat)
    requires nearest < 4
    ensures NameOf(SetActiveFormat(c, dev, code, nearest).code) ==
            Raw(if NameOf(code).Raw? then NameOf(code).bits else 10, Oriented(c.hflip.val != 0, c.vflip.val != 0))
  {
    hide FormatCode, CodeIndexFrom, Depth, Retime, Oriented, NameOf, Codes;
    var first := Codes()[CodeIndex(code)];
    RetimeKeepsCore(c.(code := FormatCode(c, first), mode := nearest), dev);
    ReportedOrderFollowsFlips(c, first);
    FirstName(code);
  }

  /** What the table search turns a code into keeps its bits, and is 10-bit for an unknown one. */
  lemma FirstName(code: nat)
    ensures NameOf(Codes()[CodeIndex(code)]).Raw?
            && NameOf(Codes()[CodeIndex(code)]).bits == if NameOf(code).Raw? then NameOf(code).bits else 10
  {
    hide CodeIndexFrom, Depth, Oriented;
    NamedIsTabled(code);
    TableNames(CodeIndex(code));
    UnknownIsFirst(code);
  }
}
