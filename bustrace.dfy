/** What the driver does to the bus, as a log of events, and the register
    operations those events encode. */
module BusTrace {
  import opened Options
  import opened Registers

  /** One observable action: a chip-select edge, one `spi.xfer` of a byte
      list, one `spi.readbytes` of `count` bytes, or a delay. */
  datatype BusEvent =
    | CsLow
    | CsHigh
    | Xfer(bytes: seq<bv8>)
    | Read(count: nat)
    | Wait(seconds: nat)

  /** One register operation of the protocol, or a delay between two. */
  datatype Op =
    | StrobeOp(address: bv8)
    | WriteOp(address: bv8, data: seq<bv8>)
    | ReadOp(address: bv8, count: nat)
    | WaitOp(seconds: nat)

  /** An operation whose address lies in the 6-bit register map. */
  predicate InRange(op: Op) {
    !op.WaitOp? ==> op.address <= 0x3F
  }

  predicate IsExchange(e: BusEvent) {
    e.Xfer? || e.Read?
  }

  /** The events one operation puts on the bus: chip select low, the header
      byte, the data phase (if any), chip select high. */
  function Frame(op: Op): (f: seq<BusEvent>)
    ensures op.WaitOp? ==> f == [Wait(op.seconds)]
    ensures !op.WaitOp? ==> |f| >= 3 && f[0] == CsLow && f[|f| - 1] == CsHigh
    ensures !op.WaitOp? ==> forall i :: 0 < i < |f| - 1 ==> IsExchange(f[i])
    ensures op.StrobeOp? ==> |f| == 3 && f[1] == Xfer([Header(Strobe, op.address)])
    ensures op.WriteOp? ==> |f| == 4 && f[1] == Xfer([Header(BurstWrite, op.address)]) && f[2] == Xfer(op.data)
    ensures op.ReadOp? ==> |f| == 4 && f[1] == Xfer([Header(BurstRead, op.address)]) && f[2] == Read(op.count)
  {
    match op
    case StrobeOp(a) => [CsLow, Xfer([Header(Strobe, a)]), CsHigh]
    case WriteOp(a, d) => [CsLow, Xfer([Header(BurstWrite, a)]), Xfer(d), CsHigh]
    case ReadOp(a, n) => [CsLow, Xfer([Header(BurstRead, a)]), Read(n), CsHigh]
    case WaitOp(s) => [Wait(s)]
  }

  /** The events of a sequence of operations, one frame after another. */
  function Encode(ops: seq<Op>): (t: seq<BusEvent>)
  {
    if ops == [] then [] else Frame(ops[0]) + Encode(ops[1..])
  }

  /** Peels the frame of the operation at position `k` off the encoding of
      the operations from `k` on. */
  lemma EncodeFrom(ops: seq<Op>, k: nat)
    requires k < |ops|
    ensures Encode(ops[k..]) == Frame(ops[k]) + Encode(ops[k + 1..])
  {
    assert ops[k..][1..] == ops[k + 1..];
  }

  function Prepend(op: Op, rest: Option<seq<Op>>): (r: Option<seq<Op>>) {
    match rest
    case None => None
    case Some(ops) => Some([op] + ops)
  }

  /** Reads a bus log back as the driver's register operations, the inverse
      of `Encode`: every chip-select window must hold one header byte and at
      most one data phase that matches the header's mode, as `ParseHeader`
      reads it.  This is not the chip's own decoding of the log. */
  function Decode(t: seq<BusEvent>): (r: Option<seq<Op>>)
    decreases |t|
  {
    if |t| == 0 then Some([])
    else if t[0].Wait? then Prepend(WaitOp(t[0].seconds), Decode(t[1..]))
    else if |t| >= 3 && t[0] == CsLow && t[1].Xfer? && |t[1].bytes| == 1 then
      match ParseHeader(t[1].bytes[0])
      case None => None
      case Some((kind, a)) =>
        match kind
        case Strobe =>
          if t[2] == CsHigh then Prepend(StrobeOp(a), Decode(t[3..])) else None
        case BurstWrite =>
          if |t| >= 4 && t[2].Xfer? && t[3] == CsHigh
          then Prepend(WriteOp(a, t[2].bytes), Decode(t[4..])) else None
        case BurstRead =>
          if |t| >= 4 && t[2].Read? && t[3] == CsHigh
          then Prepend(ReadOp(a, t[2].count), Decode(t[4..])) else None
    else None
  }

  lemma {:induction false} EncodeAppend(a: seq<Op>, b: seq<Op>)
    ensures Encode(a + b) == Encode(a) + Encode(b)
  {
    if a == [] {
      assert a + b == b;
    } else {
      assert (a + b)[1..] == a[1..] + b;
      EncodeAppend(a[1..], b);
    }
  }

  /** Decoding one frame in front of any log consumes exactly that frame. */
  lemma DecodeFrame(op: Op, rest: seq<BusEvent>)
    requires InRange(op)
    ensures Decode(Frame(op) + rest) == Prepend(op, Decode(rest))
  {
    var f := Frame(op);
    var t := f + rest;
    assert t[|f|..] == rest;
    if !op.WaitOp? {
      assert t[0] == CsLow && t[1] == f[1] && t[2] == f[2];
      match op
      case StrobeOp(a) =>
        HeaderRoundTrip(Strobe, a);
      case WriteOp(a, d) =>
        HeaderRoundTrip(BurstWrite, a);
        assert t[3] == CsHigh;
      case ReadOp(a, n) =>
        HeaderRoundTrip(BurstRead, a);
        assert t[3] == CsHigh;
    }
  }

  /** Decoding inverts encoding for operations on the register map. */
  lemma {:induction false} DecodeEncode(ops: seq<Op>)
    requires forall i :: 0 <= i < |ops| ==> InRange(ops[i])
    ensures Decode(Encode(ops)) == Some(ops)
  {
    if ops != [] {
      DecodeEncode(ops[1..]);
      DecodeFrame(ops[0], Encode(ops[1..]));
      assert [ops[0]] + ops[1..] == ops;
    }
  }

  /** Replays a log against the chip-select line, starting at level `high`.
      It fails when a window opens inside a window, closes when none is
      open, an exchange happens with the chip deselected, or a delay falls
      inside a window; otherwise it yields the final level. */
  function Replay(high: bool, t: seq<BusEvent>): (r: Option<bool>)
    decreases |t|
  {
    if t == [] then Some(high)
    else
      match t[0]
      case CsLow => if high then Replay(false, t[1..]) else None
      case CsHigh => if !high then Replay(true, t[1..]) else None
      case Xfer(_) => if !high then Replay(high, t[1..]) else None
      case Read(_) => if !high then Replay(high, t[1..]) else None
      case Wait(_) => if high then Replay(high, t[1..]) else None
  }

  /** The chip-select level after a log, counting only the edges. */
  function CsAfter(high: bool, t: seq<BusEvent>): (level: bool)
    decreases |t|
  {
    if t == [] then high
    else CsAfter(if t[0] == CsLow then false else if t[0] == CsHigh then true else high, t[1..])
  }

  /** Replaying a concatenation is replaying the parts one after the other. */
  lemma {:induction false} ReplayAppend(high: bool, a: seq<BusEvent>, b: seq<BusEvent>)
    ensures Replay(high, a + b) == match Replay(high, a) case None => None case Some(h) => Replay(h, b)
    decreases |a|
  {
    if a != [] {
      assert (a + b)[0] == a[0];
      assert (a + b)[1..] == a[1..] + b;
      match a[0]
      case CsLow => if high { ReplayAppend(false, a[1..], b); }
      case CsHigh => if !high { ReplayAppend(true, a[1..], b); }
      case Xfer(_) => if !high { ReplayAppend(high, a[1..], b); }
      case Read(_) => if !high { ReplayAppend(high, a[1..], b); }
      case Wait(_) => if high { ReplayAppend(high, a[1..], b); }
    } else {
      assert a + b == b;
    }
  }

  /** Every frame starts and ends with the chip deselected and keeps it
      selected for all of its exchanges. */
  lemma FrameBracketed(op: Op)
    ensures Replay(true, Frame(op)) == Some(true)
  {
    var f := Frame(op);
    if op.WaitOp? {
      assert f[1..] == [];
    } else {
      var n := |f|;
      assert f[n - 1..] == [CsHigh];
      assert Replay(false, f[n - 1..]) == Some(true);
      if n == 4 {
        assert f[2..][1..] == f[3..];
        assert Replay(false, f[2..]) == Some(true);
      }
      assert f[1..][1..] == f[2..];
      assert Replay(false, f[1..]) == Some(true);
    }
  }

  /** Appending one frame to a well-bracketed log keeps it well bracketed. */
  lemma AppendFrameKeepsBracketing(before: seq<BusEvent>, op: Op)
    requires Replay(true, before) == Some(true)
    ensures Replay(true, before + Frame(op)) == Some(true)
  {
    ReplayAppend(true, before, Frame(op));
    FrameBracketed(op);
  }

  /** Any sequence of operations leaves chip select high between any two of
      them and at the end. */
  lemma {:induction false} EncodeBracketed(ops: seq<Op>)
    ensures Replay(true, Encode(ops)) == Some(true)
  {
    if ops != [] {
      FrameBracketed(ops[0]);
      EncodeBracketed(ops[1..]);
      ReplayAppend(true, Frame(ops[0]), Encode(ops[1..]));
    }
  }

  /** A log that replays without fault ends at the level its edges say. */
  lemma {:induction false} ReplayLevel(high: bool, t: seq<BusEvent>)
    requires Replay(high, t).Some?
    ensures Replay(high, t) == Some(CsAfter(high, t))
    decreases |t|
  {
    if t != [] {
      ReplayLevel(if t[0] == CsLow then false else if t[0] == CsHigh then true else high, t[1..]);
    }
  }

  /** In a log that replays without fault, every exchange happens while chip
      select is low, i.e. inside an open window. */
  lemma {:induction false} ExchangeWhileSelected(high: bool, t: seq<BusEvent>, i: nat)
    requires Replay(high, t).Some?
    requires i < |t| && IsExchange(t[i])
    ensures !CsAfter(high, t[..i])
    decreases i
  {
    if i > 0 {
      var next := if t[0] == CsLow then false else if t[0] == CsHigh then true else high;
      assert t[..i][0] == t[0];
      assert t[..i][1..] == t[1..][..i - 1];
      ExchangeWhileSelected(next, t[1..], i - 1);
    }
  }
}
