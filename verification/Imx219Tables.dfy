/** Register tables, modes and media bus codes of the IMX219 driver. */
module Imx219Tables {

  /** One I2C register write of `bytes` bytes. */
  datatype Write = Write(addr: nat, bytes: nat, val: nat)

  const REG_MODE_SELECT := 0x0100
  const MODE_STANDBY := 0
  const MODE_STREAMING := 1

  datatype Mode = Mode(width: nat, height: nat, vtsDef: nat)

  const MODES: seq<Mode> := [
    Mode(3280, 2464, 0x0dc6), Mode(1920, 1080, 0x06e3), Mode(1640, 1232, 0x06e3), Mode(640, 480, 0x06e3)
  ]

  function R8(addr: nat, val: nat): Write {
    Write(addr, 1, val)
  }

  /** The list puts the sensor in standby first and never touches MODE_SELECT again. */
  predicate StandbyFirst(regs: seq<Write>) {
    && |regs| > 0 && regs[0] == Write(REG_MODE_SELECT, 1, MODE_STANDBY)
    && forall i :: 1 <= i < |regs| ==> regs[i].addr != REG_MODE_SELECT
  }

  function Mode3280x2464(): (regs: seq<Write>)
    ensures StandbyFirst(regs)
  {
    [R8(0x0100, 0x00), R8(0x30eb, 0x0c), R8(0x30eb, 0x05), R8(0x300a, 0xff), R8(0x300b, 0xff), R8(0x30eb, 0x05)] +
    [R8(0x30eb, 0x09), R8(0x0114, 0x01), R8(0x0128, 0x00), R8(0x012a, 0x18), R8(0x012b, 0x00), R8(0x0164, 0x00)] +
    [R8(0x0165, 0x00), R8(0x0166, 0x0c), R8(0x0167, 0xcf), R8(0x0168, 0x00), R8(0x0169, 0x00), R8(0x016a, 0x09)] +
    [R8(0x016b, 0x9f), R8(0x016c, 0x0c), R8(0x016d, 0xd0), R8(0x016e, 0x09), R8(0x016f, 0xa0), R8(0x0170, 0x01)] +
    [R8(0x0171, 0x01), R8(0x0174, 0x00), R8(0x0175, 0x00), R8(0x0301, 0x05), R8(0x0303, 0x01), R8(0x0304, 0x03)] +
    [R8(0x0305, 0x03), R8(0x0306, 0x00), R8(0x0307, 0x39), R8(0x030b, 0x01), R8(0x030c, 0x00), R8(0x030d, 0x72)] +
    [R8(0x0624, 0x0c), R8(0x0625, 0xd0), R8(0x0626, 0x09), R8(0x0627, 0xa0), R8(0x455e, 0x00), R8(0x471e, 0x4b)] +
    [R8(0x4767, 0x0f), R8(0x4750, 0x14), R8(0x4540, 0x00), R8(0x47b4, 0x14), R8(0x4713, 0x30), R8(0x478b, 0x10)] +
    [R8(0x478f, 0x10), R8(0x4793, 0x10), R8(0x4797, 0x0e), R8(0x479b, 0x0e), R8(0x0162, 0x0d), R8(0x0163, 0x78)]
  }

  function Mode1920x1080(): (regs: seq<Write>)
    ensures StandbyFirst(regs)
  {
    [R8(0x0100, 0x00), R8(0x30eb, 0x05), R8(0x30eb, 0x0c), R8(0x300a, 0xff), R8(0x300b, 0xff), R8(0x30eb, 0x05)] +
    [R8(0x30eb, 0x09), R8(0x0114, 0x01), R8(0x0128, 0x00), R8(0x012a, 0x18), R8(0x012b, 0x00), R8(0x0162, 0x0d)] +
    [R8(0x0163, 0x78), R8(0x0164, 0x02), R8(0x0165, 0xa8), R8(0x0166, 0x0a), R8(0x0167, 0x27), R8(0x0168, 0x02)] +
    [R8(0x0169, 0xb4), R8(0x016a, 0x06), R8(0x016b, 0xeb), R8(0x016c, 0x07), R8(0x016d, 0x80), R8(0x016e, 0x04)] +
    [R8(0x016f, 0x38), R8(0x0170, 0x01), R8(0x0171, 0x01), R8(0x0174, 0x00), R8(0x0175, 0x00), R8(0x0301, 0x05)] +
    [R8(0x0303, 0x01), R8(0x0304, 0x03), R8(0x0305, 0x03), R8(0x0306, 0x00), R8(0x0307, 0x39), R8(0x030b, 0x01)] +
    [R8(0x030c, 0x00), R8(0x030d, 0x72), R8(0x0624, 0x07), R8(0x0625, 0x80), R8(0x0626, 0x04), R8(0x0627, 0x38)] +
    [R8(0x455e, 0x00), R8(0x471e, 0x4b), R8(0x4767, 0x0f), R8(0x4750, 0x14), R8(0x4540, 0x00), R8(0x47b4, 0x14)] +
    [R8(0x4713, 0x30), R8(0x478b, 0x10), R8(0x478f, 0x10), R8(0x4793, 0x10), R8(0x4797, 0x0e), R8(0x479b, 0x0e)] +
    [R8(0x0162, 0x0d), R8(0x0163, 0x78)]
  }

  function Mode1640x1232(): (regs: seq<Write>)
    ensures StandbyFirst(regs)
  {
    [R8(0x0100, 0x00), R8(0x30eb, 0x0c), R8(0x30eb, 0x05), R8(0x300a, 0xff), R8(0x300b, 0xff), R8(0x30eb, 0x05)] +
    [R8(0x30eb, 0x09), R8(0x0114, 0x01), R8(0x0128, 0x00), R8(0x012a, 0x18), R8(0x012b, 0x00), R8(0x0164, 0x00)] +
    [R8(0x0165, 0x00), R8(0x0166, 0x0c), R8(0x0167, 0xcf), R8(0x0168, 0x00), R8(0x0169, 0x00), R8(0x016a, 0x09)] +
    [R8(0x016b, 0x9f), R8(0x016c, 0x06), R8(0x016d, 0x68), R8(0x016e, 0x04), R8(0x016f, 0xd0), R8(0x0170, 0x01)] +
    [R8(0x0171, 0x01), R8(0x0174, 0x01), R8(0x0175, 0x01), R8(0x0301, 0x05), R8(0x0303, 0x01), R8(0x0304, 0x03)] +
    [R8(0x0305, 0x03), R8(0x0306, 0x00), R8(0x0307, 0x39), R8(0x030b, 0x01), R8(0x030c, 0x00), R8(0x030d, 0x72)] +
    [R8(0x0624, 0x06), R8(0x0625, 0x68), R8(0x0626, 0x04), R8(0x0627, 0xd0), R8(0x455e, 0x00), R8(0x471e, 0x4b)] +
    [R8(0x4767, 0x0f), R8(0x4750, 0x14), R8(0x4540, 0x00), R8(0x47b4, 0x14), R8(0x4713, 0x30), R8(0x478b, 0x10)] +
    [R8(0x478f, 0x10), R8(0x4793, 0x10), R8(0x4797, 0x0e), R8(0x479b, 0x0e), R8(0x0162, 0x0d), R8(0x0163, 0x78)]
  }

  function Mode640x480(): (regs: seq<Write>)
    ensures StandbyFirst(regs)
  {
    [R8(0x0100, 0x00), R8(0x30eb, 0x05), R8(0x30eb, 0x0c), R8(0x300a, 0xff), R8(0x300b, 0xff), R8(0x30eb, 0x05)] +
    [R8(0x30eb, 0x09), R8(0x0114, 0x01), R8(0x0128, 0x00), R8(0x012a, 0x18), R8(0x012b, 0x00), R8(0x0162, 0x0d)] +
    [R8(0x0163, 0x78), R8(0x0164, 0x03), R8(0x0165, 0xe8), R8(0x0166, 0x08), R8(0x0167, 0xe7), R8(0x0168, 0x02)] +
    [R8(0x0169, 0xf0), R8(0x016a, 0x06), R8(0x016b, 0xaf), R8(0x016c, 0x02), R8(0x016d, 0x80), R8(0x016e, 0x01)] +
    [R8(0x016f, 0xe0), R8(0x0170, 0x01), R8(0x0171, 0x01), R8(0x0174, 0x03), R8(0x0175, 0x03), R8(0x0301, 0x05)] +
    [R8(0x0303, 0x01), R8(0x0304, 0x03), R8(0x0305, 0x03), R8(0x0306, 0x00), R8(0x0307, 0x39), R8(0x030b, 0x01)] +
    [R8(0x030c, 0x00), R8(0x030d, 0x72), R8(0x0624, 0x06), R8(0x0625, 0x68), R8(0x0626, 0x04), R8(0x0627, 0xd0)] +
    [R8(0x455e, 0x00), R8(0x471e, 0x4b), R8(0x4767, 0x0f), R8(0x4750, 0x14), R8(0x4540, 0x00), R8(0x47b4, 0x14)] +
    [R8(0x4713, 0x30), R8(0x478b, 0x10), R8(0x478f, 0x10), R8(0x4793, 0x10), R8(0x4797, 0x0e), R8(0x479b, 0x0e)]
  }

  /** The register list of each entry of MODES. */
  function ModeRegs(mode: nat): (regs: seq<Write>)
    requires mode < 4
    ensures StandbyFirst(regs)
  {
    if mode == 0 then Mode3280x2464()
    else if mode == 1 then Mode1920x1080()
    else if mode == 2 then Mode1640x1232()
    else Mode640x480()
  }
}
