/** The order-entry protocol: messages, their payloads, and the framed form they travel in. */
module Protocol {
  import opened Machine
  import opened Wire

  const MAGIC: nat := 0x53455231
  const VERSION: nat := 2
  const HEADER: nat := 16
  const MAX_PAYLOAD: nat := 65536

  /** Enumerations travel as a byte that is not checked on reading. */
  datatype Message =
    | NewOrder(cid: nat, symbol: nat, side: Byte, price: int, qty: nat, ts: int)
    | CancelOrder(cid: nat, symbol: nat, ts: int)
    | OrderAck(cid: nat, xid: nat, ts: int)
    | OrderReject(cid: nat, reason: Byte, ts: int)
    | FillReport(cid: nat, xid: nat, price: int, qty: nat, remaining: nat, ts: int)
    | CancelAck(cid: nat, ts: int)
    | CancelReject(cid: nat, reason: Byte, ts: int)
    | ModifyOrder(cid: nat, symbol: nat, price: int, qty: nat, ts: int)
    | ModifyAck(cid: nat, xid: nat, ts: int)
    | ModifyReject(cid: nat, reason: Byte, ts: int)
    | Heartbeat
    | HeartbeatAck

  /** Market data travels alone in a datagram. */
  datatype MarketData = MarketData(seqNum: nat, symbol: nat, kind: Byte, side: Byte, price: int, qty: nat, ts: int)

  /** Every field is a value of its machine type. */
  ghost predicate Representable(m: Message) {
    match m
    case NewOrder(cid, symbol, _, price, qty, ts) => cid < U64 && symbol < U32 && Fits64(price) && qty < U32 && Fits64(ts)
    case CancelOrder(cid, symbol, ts) => cid < U64 && symbol < U32 && Fits64(ts)
    case OrderAck(cid, xid, ts) => cid < U64 && xid < U64 && Fits64(ts)
    case OrderReject(cid, _, ts) => cid < U64 && Fits64(ts)
    case FillReport(cid, xid, price, qty, remaining, ts) =>
      cid < U64 && xid < U64 && Fits64(price) && qty < U32 && remaining < U32 && Fits64(ts)
    case CancelAck(cid, ts) => cid < U64 && Fits64(ts)
    case CancelReject(cid, _, ts) => cid < U64 && Fits64(ts)
    case ModifyOrder(cid, symbol, price, qty, ts) => cid < U64 && symbol < U32 && Fits64(price) && qty < U32 && Fits64(ts)
    case ModifyAck(cid, xid, ts) => cid < U64 && xid < U64 && Fits64(ts)
    case ModifyReject(cid, _, ts) => cid < U64 && Fits64(ts)
    case _ => true
  }

  function TypeOf(m: Message): (t: nat)
    ensures 2 <= t <= 13
  {
    match m
    case NewOrder(_, _, _, _, _, _) => 2
    case CancelOrder(_, _, _) => 3
    case OrderAck(_, _, _) => 4
    case OrderReject(_, _, _) => 5
    case FillReport(_, _, _, _, _, _) => 6
    case CancelAck(_, _) => 7
    case CancelReject(_, _, _) => 8
    case ModifyOrder(_, _, _, _, _) => 9
    case ModifyAck(_, _, _) => 10
    case ModifyReject(_, _, _) => 11
    case Heartbeat => 12
    case HeartbeatAck => 13
  }

  /** Wire size of the payload of a message type. */
  function PayloadSize(t: nat): nat {
    match t
    case 2 => 33
    case 3 => 20
    case 4 => 24
    case 5 => 17
    case 6 => 40
    case 7 => 16
    case 8 => 17
    case 9 => 32
    case 10 => 24
    case 11 => 17
    case _ => 0
  }

  // ---------------------------------------------------------------------------
  // Payloads
  // ---------------------------------------------------------------------------

  /** The payload: the fields in the order of the wire layout, without padding. */
  function Payload(m: Message): seq<Byte> {
    match m
    case NewOrder(cid, symbol, side, price, qty, ts) =>
      Put(Put(Put(Put(Put(Put([], cid, 8), symbol, 4), side, 1), Unsigned(price), 8), qty, 4), Unsigned(ts), 8)
    case CancelOrder(cid, symbol, ts) => Put(Put(Put([], cid, 8), symbol, 4), Unsigned(ts), 8)
    case OrderAck(cid, xid, ts) => Put(Put(Put([], cid, 8), xid, 8), Unsigned(ts), 8)
    case OrderReject(cid, reason, ts) => Put(Put(Put([], cid, 8), reason, 1), Unsigned(ts), 8)
    case FillReport(cid, xid, price, qty, remaining, ts) =>
      Put(Put(Put(Put(Put(Put([], cid, 8), xid, 8), Unsigned(price), 8), qty, 4), remaining, 4), Unsigned(ts), 8)
    case CancelAck(cid, ts) => Put(Put([], cid, 8), Unsigned(ts), 8)
    case CancelReject(cid, reason, ts) => Put(Put(Put([], cid, 8), reason, 1), Unsigned(ts), 8)
    case ModifyOrder(cid, symbol, price, qty, ts) =>
      Put(Put(Put(Put(Put([], cid, 8), symbol, 4), Unsigned(price), 8), qty, 4), Unsigned(ts), 8)
    case ModifyAck(cid, xid, ts) => Put(Put(Put([], cid, 8), xid, 8), Unsigned(ts), 8)
    case ModifyReject(cid, reason, ts) => Put(Put(Put([], cid, 8), reason, 1), Unsigned(ts), 8)
    case Heartbeat => []
    case HeartbeatAck => []
  }

  lemma {:induction false} PayloadSized(m: Message)
    ensures |Payload(m)| == PayloadSize(TypeOf(m))
  {
    hide Put, Load, Unsigned;
  }

  function LoadByte(bs: seq<Byte>, off: nat): (b: Byte)
    requires off < |bs|
    ensures b == Load(bs, off, 1)
  {
    assert bs[off..off + 1] == [bs[off]];
    assert Value([bs[off]]) == 256 * Value([bs[off]][..0]) + bs[off];
    bs[off]
  }

  function LoadSigned(bs: seq<Byte>, off: nat): int
    requires off + 8 <= |bs|
  {
    Signed(Load(bs, off, 8))
  }

  /** Reads a payload back at fixed offsets. Longer payloads are accepted. */
  function Parse(t: nat, p: seq<Byte>): Option<Message> {
    if |p| < PayloadSize(t) then None
    else match t
      case 2 => Some(NewOrder(Load(p, 0, 8), Load(p, 8, 4), LoadByte(p, 12), LoadSigned(p, 13), Load(p, 21, 4), LoadSigned(p, 25)))
      case 3 => Some(CancelOrder(Load(p, 0, 8), Load(p, 8, 4), LoadSigned(p, 12)))
      case 4 => Some(OrderAck(Load(p, 0, 8), Load(p, 8, 8), LoadSigned(p, 16)))
      case 5 => Some(OrderReject(Load(p, 0, 8), LoadByte(p, 8), LoadSigned(p, 9)))
      case 6 => Some(FillReport(Load(p, 0, 8), Load(p, 8, 8), LoadSigned(p, 16), Load(p, 24, 4), Load(p, 28, 4), LoadSigned(p, 32)))
      case 7 => Some(CancelAck(Load(p, 0, 8), LoadSigned(p, 8)))
      case 8 => Some(CancelReject(Load(p, 0, 8), LoadByte(p, 8), LoadSigned(p, 9)))
      case 9 => Some(ModifyOrder(Load(p, 0, 8), Load(p, 8, 4), LoadSigned(p, 12), Load(p, 20, 4), LoadSigned(p, 24)))
      case 10 => Some(ModifyAck(Load(p, 0, 8), Load(p, 8, 8), LoadSigned(p, 16)))
      case 11 => Some(ModifyReject(Load(p, 0, 8), LoadByte(p, 8), LoadSigned(p, 9)))
      case 12 => Some(Heartbeat)
      case 13 => Some(HeartbeatAck)
      case _ => None
  }

  /** Every message survives being written and read. */
  lemma {:induction false} PayloadRoundTrip(m: Message, rest: seq<Byte>)
    requires Representable(m)
    ensures Parse(TypeOf(m), Payload(m) + rest) == Some(m)
  {
    hide Put, Load, LoadByte, Signed, Unsigned, Pow256;
    WordSizes();
    PayloadSized(m);
    KeepsFields(Payload(m), rest);
    match m
    case NewOrder(_, _, _, price, _, ts) => SignedUnsigned(price); SignedUnsigned(ts);
    case CancelOrder(_, _, ts) => SignedUnsigned(ts);
    case OrderAck(_, _, ts) => SignedUnsigned(ts);
    case OrderReject(_, _, ts) => SignedUnsigned(ts);
    case FillReport(_, _, price, _, _, ts) => SignedUnsigned(price); SignedUnsigned(ts);
    case CancelAck(_, ts) => SignedUnsigned(ts);
    case CancelReject(_, _, ts) => SignedUnsigned(ts);
    case ModifyOrder(_, _, price, _, ts) => SignedUnsigned(price); SignedUnsigned(ts);
    case ModifyAck(_, _, ts) => SignedUnsigned(ts);
    case ModifyReject(_, _, ts) => SignedUnsigned(ts);
    case _ =>
  }

  /** And whatever bytes are read as a message are that message's payload. */
  lemma {:induction false} ParseIsExact(t: nat, p: seq<Byte>)
    requires Parse(t, p).Some?
    ensures var m := Parse(t, p).value; Representable(m) && TypeOf(m) == t && Payload(m) == p[..PayloadSize(t)]
  {
    hide Put, Load, LoadByte, Signed, Unsigned, Pow256;
    WordSizes();
    assert p[..0] == [];
    match t
    case 2 => Reread(p, 0, 8); Reread(p, 8, 4); Reread(p, 12, 1); Reread(p, 13, 8); Reread(p, 21, 4); Reread(p, 25, 8);
    case 3 => Reread(p, 0, 8); Reread(p, 8, 4); Reread(p, 12, 8);
    case 4 => Reread(p, 0, 8); Reread(p, 8, 8); Reread(p, 16, 8);
    case 5 => Reread(p, 0, 8); Reread(p, 8, 1); Reread(p, 9, 8);
    case 6 => Reread(p, 0, 8); Reread(p, 8, 8); Reread(p, 16, 8); Reread(p, 24, 4); Reread(p, 28, 4); Reread(p, 32, 8);
    case 7 => Reread(p, 0, 8); Reread(p, 8, 8);
    case 8 => Reread(p, 0, 8); Reread(p, 8, 1); Reread(p, 9, 8);
    case 9 => Reread(p, 0, 8); Reread(p, 8, 4); Reread(p, 12, 8); Reread(p, 20, 4); Reread(p, 24, 8);
    case 10 => Reread(p, 0, 8); Reread(p, 8, 8); Reread(p, 16, 8);
    case 11 => Reread(p, 0, 8); Reread(p, 8, 1); Reread(p, 9, 8);
    case _ =>
  }

  /** Stores the fields of an order, a cancel or a modify at their offsets. */
  method StoreRequest(buf: array<Byte>, m: Message)
    requires m.NewOrder? || m.CancelOrder? || m.ModifyOrder?
    requires buf.Length >= PayloadSize(TypeOf(m))
    modifies buf
    ensures buf[..PayloadSize(TypeOf(m))] == Payload(m)
    ensures forall i :: PayloadSize(TypeOf(m)) <= i < buf.Length ==> buf[i] == old(buf[i])
  {
    hide Put, Load, Unsigned;
    assert buf[..0] == [];
    match m {
      case NewOrder(cid, symbol, side, price, qty, ts) =>
        Store(buf, 0, cid, 8);
        Store(buf, 8, symbol, 4);
        Store(buf, 12, side, 1);
        Store(buf, 13, Unsigned(price), 8);
        Store(buf, 21, qty, 4);
        Store(buf, 25, Unsigned(ts), 8);
      case CancelOrder(cid, symbol, ts) =>
        Store(buf, 0, cid, 8);
        Store(buf, 8, symbol, 4);
        Store(buf, 12, Unsigned(ts), 8);
      case ModifyOrder(cid, symbol, price, qty, ts) =>
        Store(buf, 0, cid, 8);
        Store(buf, 8, symbol, 4);
        Store(buf, 12, Unsigned(price), 8);
        Store(buf, 20, qty, 4);
        Store(buf, 24, Unsigned(ts), 8);
    }
  }

  /** Stores the fields of an acknowledgement or a fill at their offsets. */
  method StoreAck(buf: array<Byte>, m: Message)
    requires m.OrderAck? || m.FillReport? || m.CancelAck? || m.ModifyAck?
    requires buf.Length >= PayloadSize(TypeOf(m))
    modifies buf
    ensures buf[..PayloadSize(TypeOf(m))] == Payload(m)
    ensures forall i :: PayloadSize(TypeOf(m)) <= i < buf.Length ==> buf[i] == old(buf[i])
  {
    hide Put, Load, Unsigned;
    assert buf[..0] == [];
    match m {
      case OrderAck(cid, xid, ts) =>
        Store(buf, 0, cid, 8);
        Store(buf, 8, xid, 8);
        Store(buf, 16, Unsigned(ts), 8);
      case FillReport(cid, xid, price, qty, remaining, ts) =>
        Store(buf, 0, cid, 8);
        Store(buf, 8, xid, 8);
        Store(buf, 16, Unsigned(price), 8);
        Store(buf, 24, qty, 4);
        Store(buf, 28, remaining, 4);
        Store(buf, 32, Unsigned(ts), 8);
      case CancelAck(cid, ts) =>
        Store(buf, 0, cid, 8);
        Store(buf, 8, Unsigned(ts), 8);
      case ModifyAck(cid, xid, ts) =>
        Store(buf, 0, cid, 8);
        Store(buf, 8, xid, 8);
        Store(buf, 16, Unsigned(ts), 8);
    }
  }

  /** Stores the fields of a rejection at their offsets. */
  method StoreReject(buf: array<Byte>, m: Message)
    requires m.OrderReject? || m.CancelReject? || m.ModifyReject?
    requires buf.Length >= PayloadSize(TypeOf(m))
    modifies buf
    ensures buf[..PayloadSize(TypeOf(m))] == Payload(m)
    ensures forall i :: PayloadSize(TypeOf(m)) <= i < buf.Length ==> buf[i] == old(buf[i])
  {
    hide Put, Load, Unsigned;
    assert buf[..0] == [];
    match m {
      case OrderReject(cid, reason, ts) =>
        Store(buf, 0, cid, 8);
        Store(buf, 8, reason, 1);
        Store(buf, 9, Unsigned(ts), 8);
      case CancelReject(cid, reason, ts) =>
        Store(buf, 0, cid, 8);
        Store(buf, 8, reason, 1);
        Store(buf, 9, Unsigned(ts), 8);
      case ModifyReject(cid, reason, ts) =>
        Store(buf, 0, cid, 8);
        Store(buf, 8, reason, 1);
        Store(buf, 9, Unsigned(ts), 8);
    }
  }

  /** Writes a payload into a buffer: the bytes written, or 0 when the buffer is too small, which
      is then left alone. */
  method Serialize(buf: array<Byte>, m: Message) returns (n: nat)
    modifies buf
    ensures n == if buf.Length < PayloadSize(TypeOf(m)) then 0 else PayloadSize(TypeOf(m))
    ensures buf.Length < PayloadSize(TypeOf(m)) ==> buf[..] == old(buf[..])
    ensures buf.Length >= PayloadSize(TypeOf(m)) ==> buf[..n] == Payload(m)
    ensures forall i :: PayloadSize(TypeOf(m)) <= i < buf.Length ==> buf[i] == old(buf[i])
  {
    hide Put, Load, Unsigned;
    n := PayloadSize(TypeOf(m));
    if buf.Length < n {
      return 0;
    }
    if m.NewOrder? || m.CancelOrder? || m.ModifyOrder? {
      StoreRequest(buf, m);
    } else if m.OrderAck? || m.FillReport? || m.CancelAck? || m.ModifyAck? {
      StoreAck(buf, m);
    } else if m.OrderReject? || m.CancelReject? || m.ModifyReject? {
      StoreReject(buf, m);
    }
  }
}
