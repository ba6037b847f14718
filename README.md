# CC1101 radio driver over SPI — Dafny model

This project models a small Raspberry Pi driver for the TI CC1101 sub-GHz transceiver
(`rf1100se_cc1101.py`). The driver talks to the chip over SPI. A GPIO pin acts as chip
select, and the driver has three register operations:

- a command strobe, which sends the address byte alone;
- a burst write, which sends the address ORed with 0x40 and then the data;
- a burst read, which sends the address ORed with 0xC0 and then reads `len` bytes.

Two sequences are built on these. Initialization writes the 8-byte PA table at 0x3E and
then the 47-byte SmartRF configuration from register 0. Transmission strobes IDLE,
burst-writes the payload into the TX FIFO (0x3F), strobes TX, sleeps, reads TXBYTES
(0x3A) and reports 1 when the low seven bits of the status are zero, else 0.

The SPI device and the chip-select pin are replaced by a class `Cc1101.Driver` with two
fields. `trace` holds every bus event in order: `CsLow`, `CsHigh`, `Xfer(bytes)`,
`Read(n)` and `Wait(seconds)`. `cs` holds the pin level. Each register operation is a
method that appends its events. What the chip shifts out on a read cannot be known, so
the caller supplies it. `ReadBurst` takes it as `reply`, and `Tx` takes the TXBYTES byte
as `status`.

Modules:

- `Registers` (registers.dfy) holds the constants, the header-byte framing `Header`, and
  its inverse `ParseHeader`.
- `BusTrace` (bustrace.dfy) holds the bus events and register operations. `Frame` and
  `Encode` give the events an operation puts on the bus. `Decode` reads a log back as
  operations, and `Replay` checks chip-select bracketing.
- `RadioConfig` (config.dfy) holds the PA table and the 47-entry configuration table, as
  an opaque blob of bytes.
- `Cc1101` (driver.dfy) holds the driver class, the initialization and transmit
  sequences, and the transmit verdict.

In these places the model follows the code rather than the usual description of CC1101 register access:

- The code does not mask the address with 0x3F before ORing in the mode flag. An address
  above 0x3F therefore changes the mode bits (`Registers.OutOfRangeAddressAliases`).
- The code waits a fixed `sleep(2)` after the TX strobe. It does not poll the GD0 line,
  so there is no wait loop and no timeout to model. The delay is recorded as one
  `Wait(2)` event.
- The code returns the integers 1 and 0, not a boolean.
- The code takes a payload of any length; nothing limits it to 255 bytes.

## Model

| member | source | states |
|---|---|---|
| Registers.Flag | rf1100se_cc1101.py:14-15 | The mode flag of each access kind leaves the six address bits clear (0 for a strobe, 0x40 for a write burst, 0xC0 for a read burst). |
| Registers.Header | rf1100se_cc1101.py:103-119 | The header keeps the low six address bits. Its top two bits are the kind's flag ORed with the address's own top bits. For an address of at most 0x3F the header's low six bits equal the address and its top bits equal the flag. A strobe's header is the address itself. |
| Registers.ParseHeader | rf1100se_cc1101.py:14-15 | The inverse of `Header` on the driver's three modes: for a header byte it returns a kind and an address of at most 0x3F whose header is exactly that byte. It is undefined exactly when the top bits are 10. |
| Registers.HeaderRoundTrip | rf1100se_cc1101.py:14-15 | For every register address, parsing the header gives back the access kind and the address. |
| Registers.HeaderInjective | rf1100se_cc1101.py:14-15 | Two accesses to register addresses with the same header byte have the same kind and the same address. |
| Registers.OutOfRangeAddressAliases | rf1100se_cc1101.py:115-117 | The address is not validated: a burst write to 0x80 sends the same header as a burst read of 0x00. |
| Registers.DriverHeaders | rf1100se_cc1101.py:18-25 | The header bytes the driver sends are 0x36 and 0x35 for the IDLE and TX strobes, 0x7F for the TX FIFO write, 0x7E for the PA table write, 0x40 for the configuration write, and 0xFA for the TXBYTES read. |
| BusTrace.Frame | rf1100se_cc1101.py:103-119 | A register operation's events start with CsLow and end with CsHigh, with only exchanges in between. The second event is the one-byte header transfer. A write's third event is the data unchanged, and a read's is a read of exactly `count` bytes. |
| BusTrace.EncodeAppend | rf1100se_cc1101.py:122-143 | The events of two operation sequences in a row are the events of the first followed by those of the second. |
| BusTrace.EncodeFrom | rf1100se_cc1101.py:122-143 | The events from position k on are the frame of operation k followed by the events of the rest. |
| BusTrace.DecodeFrame | rf1100se_cc1101.py:103-119 | Decoding a log that starts with one frame of an in-range operation yields that operation, followed by the decoding of the rest of the log. |
| BusTrace.DecodeEncode | rf1100se_cc1101.py:103-119 | Decoding inverts encoding for every sequence of operations on register addresses, so the bus log determines the operations exactly. |
| BusTrace.ReplayAppend | rf1100se_cc1101.py:104-119 | Checking chip-select bracketing of a concatenated log equals checking the first part and then the second from the level the first ends at. |
| BusTrace.FrameBracketed | rf1100se_cc1101.py:104-119 | Every frame replays from chip select high back to high. A register frame lowers chip select once and raises it once, with every exchange between the two; the delay frame has no edges and happens with chip select high. |
| BusTrace.AppendFrameKeepsBracketing | rf1100se_cc1101.py:104-119 | Appending one frame to a well-bracketed log that ends high gives a well-bracketed log that ends high. |
| BusTrace.EncodeBracketed | rf1100se_cc1101.py:104-119 | Any sequence of operations run from chip select high is well bracketed and ends with chip select high. |
| BusTrace.ReplayLevel | rf1100se_cc1101.py:104-119 | A log that passes the bracketing check ends at the level given by its last chip-select edge. |
| BusTrace.ExchangeWhileSelected | rf1100se_cc1101.py:104-119 | In a log that passes the bracketing check, every transfer and every read happens while chip select is low. |
| RadioConfig.TableShapes | rf1100se_cc1101.py:53-101 | The configuration table has 47 byte entries, so a burst write from offset 0 ends at register 0x2E, below the strobe range that starts at 0x30. The PA table written at line 124 has 8 entries, all 0xC0. |
| Cc1101.TxResult | rf1100se_cc1101.py:143-147 | The verdict is 1 or 0. It is 1 exactly when the status byte modulo 128 is zero, that is, when no bytes remain in the TX FIFO. |
| Cc1101.TxResultIgnoresBit7 | rf1100se_cc1101.py:144 | Flipping bit 7 (TX FIFO underflow) of the status never changes the verdict. |
| Cc1101.TxResultExamples | rf1100se_cc1101.py:144-147 | Status 0x00 and 0x80 give 1. Status 0x05, 0x85 and 0x7F give 0. |
| Cc1101.InitDecodes | rf1100se_cc1101.py:122-127 | Initialization's bus log decodes to exactly two burst writes and nothing else: eight 0xC0 bytes to 0x3E, then the 47-byte configuration to 0x00. |
| Cc1101.TxEncoding | rf1100se_cc1101.py:130-143 | The transmit log is, in order, the frames of: IDLE strobe, TX FIFO write of the payload, TX strobe, the delay, and the TXBYTES read of length 1. |
| Cc1101.TxEvents | rf1100se_cc1101.py:130-143 | For every payload, including the empty one, transmission emits exactly CsLow, 0x36, CsHigh, CsLow, 0x7F, payload, CsHigh, CsLow, 0x35, CsHigh, Wait(2), CsLow, 0xFA, Read(1), CsHigh. |
| Cc1101.TxDecodes | rf1100se_cc1101.py:130-143 | The transmit log decodes to exactly five steps in order: strobe 0x36, write of the payload to 0x3F, strobe 0x35, wait 2 s, and a read of 1 byte from 0x3A. None is skipped or reordered. |
| Cc1101.InitOps | rf1100se_cc1101.py:122-127 | Initialization is two burst writes to register addresses, of 8 and then 47 bytes. |
| Cc1101.TxOps | rf1100se_cc1101.py:130-143 | Transmission is five in-range steps: a strobe, the burst write of the payload unchanged to the TX FIFO 0x3F, a strobe, the delay, and a burst read. |
| Cc1101.Driver.SetCs | rf1100se_cc1101.py:104 | Driving the chip-select pin (the `GPIO.output` calls at lines 104, 107, 111, 113, 116 and 119) sets the pin level and appends exactly one edge event. |
| Cc1101.Driver.Exchange | rf1100se_cc1101.py:105 | One `spi.xfer` (lines 105, 112, 117 and 118) appends exactly one transfer of the given bytes and leaves chip select as it was. |
| Cc1101.Driver.ReadBytes | rf1100se_cc1101.py:106 | `spi.readbytes(n)` appends exactly one read of `n` bytes, returns the chip's `n` bytes, and leaves chip select as it was. |
| Cc1101.Driver.constructor | rf1100se_cc1101.py:151-154 | Before the first operation the log is empty and chip select is high. |
| Cc1101.Driver.ReadBurst | rf1100se_cc1101.py:103-108 | The method appends exactly CsLow, the header `address OR 0xC0`, a read of `n` bytes, and CsHigh. It returns the `n` bytes the chip sent and leaves chip select high. |
| Cc1101.Driver.WriteStrobe | rf1100se_cc1101.py:110-113 | The method appends exactly CsLow, the address byte unchanged, and CsHigh, and leaves chip select high. |
| Cc1101.Driver.WriteBurst | rf1100se_cc1101.py:115-119 | The method appends exactly CsLow, the header `address OR 0x40`, the data unchanged in one transfer, and CsHigh. Nothing else is appended, and chip select is left high. |
| Cc1101.Driver.Sleep | rf1100se_cc1101.py:140 | The delay appends one `Wait` event and leaves chip select unchanged. |
| Cc1101.Driver.Init | rf1100se_cc1101.py:122-127 | The method appends exactly the events of the PA table write followed by the configuration write, and leaves the log well bracketed. |
| Cc1101.Driver.Tx | rf1100se_cc1101.py:130-147 | The method appends exactly the events of the five transmit steps, leaves the log well bracketed with chip select high, and returns the verdict of the status byte. |
| Cc1101.InitThenTx | rf1100se_cc1101.py:151-164 | From power-up, initialization and then one transmission give a log that decodes to the two init writes followed by the five transmit steps. Chip select is high at the end, every exchange happens with chip select low, and the result is the verdict of the status byte. |

## Left out

- Platform setup and teardown are not modelled: `GPIO.setmode` and `GPIO.setup`, opening and closing the SPI device, and `GPIO.cleanup`. These are I/O on libraries outside this model. The constructor only starts with chip select high.
- The `sleep(2)` is modelled only as a `Wait(2)` event. Time is not modelled.
- Polling of the GD0 completion line and a timeout on it are not modelled, because the code has neither.
- The SPI library is not part of this model, and its calls are assumed never to fail. There are no bus faults. In the code, an exception from `spi.xfer` would leave chip select low, since nothing restores it.
- What the SPI library does with an empty transfer list is not part of this model. A transmission of the empty payload records `Xfer([])`.
- `Registers.ParseHeader` and `BusTrace.Decode` invert the driver's own framing; they are not the chip's decoding. The chip reads mode bits 00 as a strobe only for addresses 0x30..0x3D and as a single-register write otherwise, and it also accepts strobes with the read bit set.
- Cc1101.Driver.ReadBurst and Cc1101.Driver.ReadBytes: both require the chip's reply to have exactly `n` bytes. This stands in for `spi.readbytes(n)` always returning `n` bytes.
- Addresses and data are bytes (`bv8`). The code's Python integers are not range-checked, but the SPI library only carries bytes.
- The radio meaning of the configuration values (frequency, modulation and the rest) is not modelled. The table is an opaque blob.
- The demo payload and the `print` of the driver script are not modelled; `Cc1101.InitThenTx` takes the payload as a parameter.
- `REG_STROBE_RESET`, `REG_STROBE_SFTX` and `PIN_GD0` exist only as constants; the code never uses them.
- `PIN_CS` is the chip-select pin. The model represents it by the field `Driver.cs` and does not use the pin number.
