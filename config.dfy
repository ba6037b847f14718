/** The radio profile written at initialization: the power-amplifier table
    and the register configuration exported from TI SmartRF Studio (433.92 MHz,
    2-FSK, Manchester, variable packet length, CRC on).  The values are an
    opaque blob to the driver; only their number and order matter. */
module RadioConfig {
  import opened Registers

  /** Eight identical PA table entries (about +10 dBm); only entry 0 is used
      at fixed output power. */
  const PaTable: seq<bv8> := [0xC0, 0xC0, 0xC0, 0xC0, 0xC0, 0xC0, 0xC0, 0xC0]

  /** Registers 0x00 (IOCFG2) through 0x2E (TEST0), in address order. */
  const Cc1101Config: seq<bv8> := [
    0x29, 0x2E, 0x06, 0x47, 0xD3, 0x91, 0xFF, 0x04,  // IOCFG2 .. PKTCTRL1
    0x05, 0x00, 0x00, 0x06, 0x00, 0x10, 0xB0, 0x7E,  // PKTCTRL0 .. FREQ0
    0xF5, 0x83, 0x0B, 0x02, 0xF8, 0x15, 0x07, 0x30,  // MDMCFG4 .. MCSM1
    0x18, 0x16, 0x6C, 0x03, 0x40, 0x91, 0x87, 0x6B,  // MCSM0 .. WOREVT0
    0xFB, 0x56, 0x10, 0xE9, 0x2A, 0x00, 0x1F, 0x41,  // WORCTRL .. RCCTRL1
    0x00, 0x59, 0x7F, 0x3F, 0x81, 0x35, 0x09         // RCCTRL0 .. TEST0
  ]

  /** The configuration covers the 47 configuration registers 0x00..0x2E,
      so a burst write from offset 0 ends just below the strobe range that
      starts at 0x30; the PA table has 8 entries, all 0xC0. */
  lemma TableShapes()
    ensures |Cc1101Config| == 47
    ensures |Cc1101Config| - 1 == 0x2E && |Cc1101Config| < RegStrobeReset as int
    ensures |PaTable| == 8 && forall i :: 0 <= i < |PaTable| ==> PaTable[i] == 0xC0
  {
  }
}
