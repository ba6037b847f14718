/** The CC1101 driver: register access over SPI with a GPIO chip select,
    and the two sequences built on it, initialization and transmission.
    The SPI device and the chip-select pin are replaced by a log of bus
    events; what the chip answers to a read is supplied by the caller. */
module Cc1101 {
  import opened Options
  import opened Registers
  import opened BusTrace
  import opened RadioConfig

  /** The seconds the driver sleeps between the TX strobe and the status read. */
  const TxDelaySeconds: nat := 2

  /** Initialization: the PA table, then the whole configuration from offset 0. */
  function InitOps(): (ops: seq<Op>)
    ensures |ops| == 2 && forall i :: 0 <= i < |ops| ==> ops[i].WriteOp? && InRange(ops[i])
    ensures |ops[0].data| == 8 && |ops[1].data| == 47
  {
    [WriteOp(RegPaTable, PaTable), WriteOp(0x00, Cc1101Config)]
  }

  /** Transmission: go idle, fill the TX FIFO, strobe TX, wait, read TXBYTES. */
  function TxOps(payload: seq<bv8>): (ops: seq<Op>)
    ensures |ops| == 5 && forall i :: 0 <= i < |ops| ==> InRange(ops[i])
    ensures ops[1] == WriteOp(RegFifoTx, payload)
    ensures ops[0].StrobeOp? && ops[2].StrobeOp? && ops[3].WaitOp? && ops[4].ReadOp?
  {
    [ StrobeOp(RegStrobeIdle),
      WriteOp(RegFifoTx, payload),
      StrobeOp(RegStrobeTx),
      WaitOp(TxDelaySeconds),
      ReadOp(RegStatusTxBytes, 1) ]
  }

  /** The transmit verdict from the TXBYTES status byte: 1 when the TX FIFO
      is empty, 0 otherwise.  Bit 7 (TX FIFO underflow) is masked away; the
      low seven bits count the bytes still in the FIFO. */
  function TxResult(status: bv8): (r: int)
    ensures r == 0 || r == 1
    ensures r == 1 <==> (status as int) % 128 == 0
  {
    if status & 0x7F == 0 then 1 else 0
  }

  /** The underflow bit never changes the verdict. */
  lemma TxResultIgnoresBit7(status: bv8)
    ensures TxResult(status ^ 0x80) == TxResult(status)
  {
  }

  lemma TxResultExamples()
    ensures TxResult(0x00) == 1 && TxResult(0x80) == 1
    ensures TxResult(0x05) == 0 && TxResult(0x85) == 0 && TxResult(0x7F) == 0
  {
  }

  /** Initialization puts on the bus exactly two burst writes and nothing
      else: eight 0xC0 bytes to the PA table at 0x3E, then the 47-byte
      configuration at offset 0x00. */
  lemma InitDecodes()
    ensures Decode(Encode(InitOps())) == Some([WriteOp(0x3E, PaTable), WriteOp(0x00, Cc1101Config)])
  {
    TableShapes();
    DecodeEncode(InitOps());
  }

  /** The encoding of a transmission, frame by frame. */
  lemma TxEncoding(payload: seq<bv8>)
    ensures Encode(TxOps(payload)) ==
      Frame(StrobeOp(RegStrobeIdle)) + Frame(WriteOp(RegFifoTx, payload)) + Frame(StrobeOp(RegStrobeTx))
      + Frame(WaitOp(TxDelaySeconds)) + Frame(ReadOp(RegStatusTxBytes, 1))
  {
    var ops := TxOps(payload);
    assert ops[5..] == [];
    EncodeFrom(ops, 4);
    EncodeFrom(ops, 3);
    EncodeFrom(ops, 2);
    EncodeFrom(ops, 1);
    EncodeFrom(ops, 0);
    assert ops[0..] == ops;
  }

  /** The bus events of one transmission, byte for byte, for every payload
      including the empty one. */
  lemma TxEvents(payload: seq<bv8>)
    ensures Encode(TxOps(payload)) ==
      [ CsLow, Xfer([0x36]), CsHigh,
        CsLow, Xfer([0x7F]), Xfer(payload), CsHigh,
        CsLow, Xfer([0x35]), CsHigh,
        Wait(2),
        CsLow, Xfer([0xFA]), Read(1), CsHigh ]
  {
    TxEncoding(payload);
    DriverHeaders();
  }

  /** A transmission decodes back to its five steps in order, whatever the
      payload: idle strobe, FIFO write of the payload, TX strobe, the delay,
      a one-byte read of TXBYTES. */
  lemma TxDecodes(payload: seq<bv8>)
    ensures Decode(Encode(TxOps(payload))) ==
      Some([ StrobeOp(0x36), WriteOp(0x3F, payload), StrobeOp(0x35), WaitOp(2), ReadOp(0x3A, 1) ])
  {
    DecodeEncode(TxOps(payload));
  }

  /** The host side of the bus: the chip-select pin and everything sent or
      received over SPI, in order. */
  class Driver {
    var trace: seq<BusEvent>
    var cs: bool  // level of the chip-select pin; true = high = deselected

    /** Between operations: chip select is high and the log is a sequence of
        well-bracketed chip-select windows. */
    ghost predicate Valid()
      reads this
    {
      cs && Replay(true, trace) == Some(true)
    }

    /** The pin is configured as an output and driven high before the
        first operation. */
    constructor ()
      ensures Valid() && trace == []
    {
      trace := [];
      cs := true;
    }

    /** GPIO.output on the chip-select pin. */
    method SetCs(high: bool)
      modifies this
      ensures cs == high
      ensures trace == old(trace) + [if high then CsHigh else CsLow]
    {
      cs := high;
      trace := trace + [if high then CsHigh else CsLow];
    }

    /** spi.xfer of a list of bytes. */
    method Exchange(bytes: seq<bv8>)
      modifies this
      ensures cs == old(cs)
      ensures trace == old(trace) + [Xfer(bytes)]
    {
      trace := trace + [Xfer(bytes)];
    }

    /** spi.readbytes(n); `reply` is what the chip shifts out. */
    method ReadBytes(n: nat, reply: seq<bv8>) returns (received: seq<bv8>)
      requires |reply| == n
      modifies this
      ensures cs == old(cs)
      ensures trace == old(trace) + [Read(n)]
      ensures received == reply
    {
      trace := trace + [Read(n)];
      received := reply;
    }

    /** sleep(seconds): no bus activity; only its place in the order is kept. */
    method Sleep(seconds: nat)
      modifies this
      ensures cs == old(cs)
      ensures trace == old(trace) + [Wait(seconds)]
    {
      trace := trace + [Wait(seconds)];
    }

    /** Burst read of `n` bytes from `address`: header `address | 0xC0`, then
        the read, inside one chip-select window. */
    method ReadBurst(address: bv8, n: nat, reply: seq<bv8>) returns (ret: seq<bv8>)
      requires Valid()
      requires |reply| == n
      modifies this
      ensures Valid()
      ensures trace == old(trace) + [CsLow, Xfer([address | ReadBurstFlag]), Read(n), CsHigh]
      ensures trace == old(trace) + Frame(ReadOp(address, n))
      ensures ret == reply && |ret| == n
    {
      ghost var before := trace;
      SetCs(false);
      Exchange([Header(BurstRead, address)]);
      ret := ReadBytes(n, reply);
      SetCs(true);
      assert trace == before + Frame(ReadOp(address, n));
      AppendFrameKeepsBracketing(before, ReadOp(address, n));
    }

    /** Command strobe: the address alone, inside one chip-select window. */
    method WriteStrobe(address: bv8)
      requires Valid()
      modifies this
      ensures Valid()
      ensures trace == old(trace) + [CsLow, Xfer([address]), CsHigh]
      ensures trace == old(trace) + Frame(StrobeOp(address))
    {
      ghost var before := trace;
      SetCs(false);
      Exchange([Header(Strobe, address)]);
      SetCs(true);
      assert trace == before + Frame(StrobeOp(address));
      AppendFrameKeepsBracketing(before, StrobeOp(address));
    }

    /** Burst write: header `address | 0x40`, then `data` unchanged in one
        transfer, inside one chip-select window. */
    method WriteBurst(address: bv8, data: seq<bv8>)
      requires Valid()
      modifies this
      ensures Valid()
      ensures trace == old(trace) + [CsLow, Xfer([address | WriteBurstFlag]), Xfer(data), CsHigh]
      ensures trace == old(trace) + Frame(WriteOp(address, data))
    {
      ghost var before := trace;
      SetCs(false);
      Exchange([Header(BurstWrite, address)]);
      Exchange(data);
      SetCs(true);
      assert trace == before + Frame(WriteOp(address, data));
      AppendFrameKeepsBracketing(before, WriteOp(address, data));
    }

    /** Loads the PA table, then the configuration from register 0. */
    method Init()
      requires Valid()
      modifies this
      ensures Valid()
      ensures trace == old(trace) + Encode(InitOps())
    {
      WriteBurst(RegPaTable, PaTable);
      WriteBurst(0x00, Cc1101Config);
      ghost var ops := InitOps();
      assert ops[2..] == [];
      EncodeFrom(ops, 1);
      EncodeFrom(ops, 0);
      assert ops[0..] == ops;
    }

    /** Sends `payload` and reports 1 when the TX FIFO has drained, else 0.
        `status` is the byte the chip returns for the TXBYTES read. */
    method Tx(payload: seq<bv8>, status: bv8) returns (sent: int)
      requires Valid()
      modifies this
      ensures Valid()
      ensures trace == old(trace) + Encode(TxOps(payload))
      ensures sent == TxResult(status)
    {
      ghost var before := trace;
      WriteStrobe(RegStrobeIdle);
      ghost var t1 := trace;
      WriteBurst(RegFifoTx, payload);
      ghost var t2 := trace;
      WriteStrobe(RegStrobeTx);
      ghost var t3 := trace;
      AppendFrameKeepsBracketing(trace, WaitOp(TxDelaySeconds));
      Sleep(TxDelaySeconds);
      ghost var t4 := trace;
      var ret := ReadBurst(RegStatusTxBytes, 1, [status]);
      TxEncoding(payload);
      assert t4 == t3 + Frame(WaitOp(TxDelaySeconds));
      assert trace == before + Encode(TxOps(payload)) by {
        assert t1 == before + Frame(StrobeOp(RegStrobeIdle));
        assert t2 == t1 + Frame(WriteOp(RegFifoTx, payload));
        assert t3 == t2 + Frame(StrobeOp(RegStrobeTx));
        assert trace == t4 + Frame(ReadOp(RegStatusTxBytes, 1));
      }
      var remaining := ret[0] & 0x7F;
      if remaining == 0 {
        sent := 1;
      } else {
        sent := 0;
      }
    }
  }

  /** What a caller sees of initialization followed by one transmission
      from power-up: the two operations' events in order, chip select high
      at the end, and every exchange made inside a chip-select window. */
  method InitThenTx(payload: seq<bv8>, status: bv8) returns (d: Driver, sent: int)
    ensures d.trace == Encode(InitOps() + TxOps(payload))
    ensures Decode(d.trace) == Some(InitOps() + TxOps(payload))
    ensures d.cs && CsAfter(true, d.trace)
    ensures forall i :: 0 <= i < |d.trace| && IsExchange(d.trace[i]) ==> !CsAfter(true, d.trace[..i])
    ensures sent == TxResult(status)
  {
    d := new Driver();
    d.Init();
    sent := d.Tx(payload, status);
    EncodeAppend(InitOps(), TxOps(payload));
    DecodeEncode(InitOps() + TxOps(payload));
    ReplayLevel(true, d.trace);
    forall i | 0 <= i < |d.trace| && IsExchange(d.trace[i])
      ensures !CsAfter(true, d.trace[..i])
    {
      ExchangeWhileSelected(true, d.trace, i);
    }
  }
}
