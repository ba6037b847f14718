/** Register addresses of the CC1101 and the header byte that opens every
    SPI access.  The header carries the access mode in bits 7..6 (bit 7 is
    read/write, bit 6 is burst) and the register address in bits 5..0. */
module Registers {
  import opened Options

  // Mode flags OR-ed into the header byte.
  const WriteBurstFlag: bv8 := 0x40
  const ReadBurstFlag: bv8 := 0xC0

  // Command strobes.
  const RegStrobeReset: bv8 := 0x30
  const RegStrobeTx: bv8 := 0x35
  const RegStrobeIdle: bv8 := 0x36
  const RegStrobeSftx: bv8 := 0x3B

  // Status register: number of bytes left in the TX FIFO (bits 6..0)
  // and the TX FIFO underflow flag (bit 7).
  const RegStatusTxBytes: bv8 := 0x3A

  const RegPaTable: bv8 := 0x3E
  const RegFifoTx: bv8 := 0x3F

  // Host GPIO pin numbers (board numbering), not used by the model;
  // `Cc1101.Driver.cs` stands for the chip-select pin.
  const PinCs: nat := 24
  const PinGd0: nat := 7

  /** The three kinds of access this driver performs. */
  datatype Access = Strobe | BurstRead | BurstWrite

  /** The mode bits a kind of access puts on top of the address. */
  function Flag(kind: Access): (f: bv8)
    ensures f & 0x3F == 0
    ensures kind == Strobe ==> f == 0x00
    ensures kind == BurstWrite ==> f == 0x40
    ensures kind == BurstRead ==> f == 0xC0
  {
    match kind
    case Strobe => 0
    case BurstRead => ReadBurstFlag
    case BurstWrite => WriteBurstFlag
  }

  /** The header byte sent first in an access.  A strobe sends the address
      unchanged; a burst ORs its flag into it.  The address is not checked:
      an address above 0x3F spills into the mode bits. */
  function Header(kind: Access, address: bv8): (h: bv8)
    ensures h & 0x3F == address & 0x3F
    ensures h & 0xC0 == Flag(kind) | (address & 0xC0)
    ensures address <= 0x3F ==> h & 0x3F == address && h & 0xC0 == Flag(kind)
    ensures kind == Strobe ==> h == address
  {
    address | Flag(kind)
  }

  /** The inverse of `Header` on the three modes this driver uses: it reads
      a header byte back as an access kind and an address.  It is not the
      chip's own decoding: the chip treats mode bits 00 as a strobe only for
      addresses 0x30..0x3D (otherwise as a single-register write), and it
      also accepts strobes with the read bit set.  The pattern 10 is never
      produced by this driver and is rejected. */
  function ParseHeader(h: bv8): (r: Option<(Access, bv8)>)
    ensures r.None? <==> h & 0xC0 == 0x80
    ensures r.Some? ==> r.value.1 <= 0x3F && Header(r.value.0, r.value.1) == h
  {
    var address := h & 0x3F;
    var mode := h & 0xC0;
    if mode == 0x00 then Some((Strobe, address))
    else if mode == WriteBurstFlag then Some((BurstWrite, address))
    else if mode == ReadBurstFlag then Some((BurstRead, address))
    else None
  }

  /** For every address of the register map, parsing the header gives back
      the kind and the address: the framing is lossless. */
  lemma HeaderRoundTrip(kind: Access, address: bv8)
    requires address <= 0x3F
    ensures ParseHeader(Header(kind, address)) == Some((kind, address))
  {
  }

  /** Distinct accesses to register addresses give distinct header bytes. */
  lemma HeaderInjective(k1: Access, a1: bv8, k2: Access, a2: bv8)
    requires a1 <= 0x3F && a2 <= 0x3F
    requires Header(k1, a1) == Header(k2, a2)
    ensures k1 == k2 && a1 == a2
  {
  }

  /** Without address validation an out-of-range address changes the mode:
      a burst write to 0x80 puts the header of a burst read of 0x00 on the bus. */
  lemma OutOfRangeAddressAliases()
    ensures Header(BurstWrite, 0x80) == Header(BurstRead, 0x00)
  {
  }

  /** The header bytes the driver actually sends. */
  lemma DriverHeaders()
    ensures Header(Strobe, RegStrobeIdle) == 0x36
    ensures Header(Strobe, RegStrobeTx) == 0x35
    ensures Header(BurstWrite, RegFifoTx) == 0x7F
    ensures Header(BurstWrite, RegPaTable) == 0x7E
    ensures Header(BurstWrite, 0x00) == 0x40
    ensures Header(BurstRead, RegStatusTxBytes) == 0xFA
  {
  }
}
